/** The metric calculators: speech rate, type-token ratio, filler-word
    count and rate, content-keyword coverage, flow, salutation and the
    grammar proxy. They turn a transcript (its raw text and its word
    sequence) and a duration into numbers and booleans. */
module Metrics {
  import opened Text

  // ---------------------------------------------------------------------
  // Speech rate

  /** `calculate_wpm`: words per minute, 0 when the duration is not positive. */
  function CalculateWpm(wordCount: nat, durationSec: real): (wpm: real)
    ensures durationSec <= 0.0 ==> wpm == 0.0
    ensures wordCount == 0 ==> wpm == 0.0
    ensures wpm >= 0.0
  {
    if durationSec <= 0.0 then 0.0 else (wordCount as real / durationSec) * 60.0
  }

  /** For a positive duration the rate is words per minute: the rate times
      the duration in seconds is 60 times the word count. */
  lemma WpmFormula(wordCount: nat, durationSec: real)
    requires durationSec > 0.0
    ensures CalculateWpm(wordCount, durationSec) * durationSec == 60.0 * wordCount as real
  {
  }

  // ---------------------------------------------------------------------
  // Vocabulary richness

  predicate Distinct(words: seq<string>) {
    forall i, j :: 0 <= i < j < |words| ==> words[i] != words[j]
  }

  /** `set(words)`: the distinct words. */
  function Types(words: seq<string>): set<string> {
    set w | w in words
  }

  /** A word sequence has at most as many distinct words as words, and
      exactly as many precisely when no word repeats. */
  lemma {:induction false} TypesCount(words: seq<string>)
    ensures |Types(words)| <= |words|
    ensures |Types(words)| == |words| <==> Distinct(words)
  {
    if words != [] {
      var rest := words[1..];
      TypesCount(rest);
      assert Types(words) == {words[0]} + Types(rest);
      if words[0] in rest {
        assert Types(words) == Types(rest);
        var k :| 0 <= k < |rest| && rest[k] == words[0];
        assert words[k + 1] == words[0];
      } else {
        assert |Types(words)| == 1 + |Types(rest)|;
        if Distinct(rest) {
          forall i, j | 0 <= i < j < |words|
            ensures words[i] != words[j]
          {
            assert words[j] == rest[j - 1];
            if i > 0 {
              assert words[i] == rest[i - 1];
            }
          }
        }
        if Distinct(words) {
          forall i, j | 0 <= i < j < |rest|
            ensures rest[i] != rest[j]
          {
            assert rest[i] == words[i + 1] && rest[j] == words[j + 1];
          }
        }
      }
    }
  }

  /** `calculate_ttr`: distinct words over words, 0.0 for no words. It lies
      in (0, 1] otherwise and is 1 exactly when every word is distinct. */
  function CalculateTtr(words: seq<string>): (ttr: real)
    ensures words == [] ==> ttr == 0.0
    ensures words != [] ==> 0.0 < ttr <= 1.0
    ensures ttr == 1.0 <==> words != [] && Distinct(words)
  {
    if words == [] then 0.0
    else
      TypesCount(words);
      assert words[0] in Types(words);
      (|Types(words)| as real) / (|words| as real)
  }

  // ---------------------------------------------------------------------
  // Filler words

  const Fillers: seq<string> := [
    "um", "uh", "like", "you know", "so", "actually", "basically", "right",
    "i mean", "well", "kinda", "sort of", "okay", "hmm", "ah"
  ]

  predicate NonEmptyPatterns(ps: seq<string>) {
    forall i :: 0 <= i < |ps| ==> |ps[i]| > 0
  }

  /** The matches of `\b p \b` in `t` that start at or after `from`, as
      `re.findall` finds them: a left-to-right scan that resumes after each
      match, so matches never overlap. */
  function MatchesFrom(t: string, p: string, from: nat): (n: nat)
    requires |p| > 0 && from <= |t|
    ensures n * |p| <= |t| - from
    decreases |t| - from
  {
    if from + |p| > |t| then 0
    else if WholeWordAt(t, p, from) then
      var rest := MatchesFrom(t, p, from + |p|);
      assert (1 + rest) * |p| == |p| + rest * |p|;
      1 + rest
    else MatchesFrom(t, p, from + 1)
  }

  /** The scan counts nothing exactly when `p` has no whole-word occurrence
      at or after `from`. */
  lemma {:induction false} MatchesZeroIff(t: string, p: string, from: nat)
    requires |p| > 0 && from <= |t|
    ensures MatchesFrom(t, p, from) == 0 <==> forall k :: from <= k ==> !WholeWordAt(t, p, k)
    decreases |t| - from
  {
    if from + |p| <= |t| && !WholeWordAt(t, p, from) {
      MatchesZeroIff(t, p, from + 1);
    }
  }

  /** Start positions of the whole-word occurrences of `p` at or after
      `from`. */
  ghost function Positions(t: string, p: string, from: nat): set<int> {
    set k | from <= k <= |t| - |p| && WholeWordAt(t, p, k)
  }

  /** Two occurrences of `p` that overlap by `|p| - d` characters meet at a
      point inside `p` with no word boundary, so at most one of them is a
      whole word. */
  ghost predicate NoSelfOverlap(p: string) {
    forall d :: SelfOverlap(p, d) ==> IsWordChar(p[d - 1]) == IsWordChar(p[d])
  }

  /** The last `|p| - d` characters of `p` are also its first ones. */
  predicate SelfOverlap(p: string, d: int) {
    0 < d < |p| && p[d..] == p[..|p| - d]
  }

  /** Inside a whole-word occurrence of a pattern without self-overlap, an
      occurrence of the same pattern has no word boundary at its start. */
  lemma NoMatchInside(t: string, p: string, a: int, k: int)
    requires NoSelfOverlap(p) && WholeWordAt(t, p, a) && a < k < a + |p| && OccursAt(t, p, k)
    ensures !BoundaryAt(t, k)
  {
    var d := k - a;
    var u, v := t[a..a + |p|], t[k..k + |p|];
    assert u == p && v == p;
    forall j | 0 <= j < |p| - d
      ensures p[d..][j] == p[..|p| - d][j]
    {
      assert u[d + j] == t[k + j] == v[j];
    }
    assert SelfOverlap(p, d);
    assert u[d - 1] == t[k - 1] && u[d] == t[k];
  }

  /** For a pattern without self-overlap the scan finds every whole-word
      occurrence: `MatchesFrom` counts their start positions. */
  lemma {:induction false} MatchesCount(t: string, p: string, from: nat)
    requires |p| > 0 && from <= |t| && NoSelfOverlap(p)
    ensures MatchesFrom(t, p, from) == |Positions(t, p, from)|
    decreases |t| - from, 1
  {
    if from + |p| > |t| {
      assert Positions(t, p, from) == {};
    } else if WholeWordAt(t, p, from) {
      CountAfterMatch(t, p, from);
    } else {
      CountAfterMiss(t, p, from);
    }
  }

  lemma {:induction false} CountAfterMatch(t: string, p: string, from: nat)
    requires |p| > 0 && from + |p| <= |t| && NoSelfOverlap(p) && WholeWordAt(t, p, from)
    ensures MatchesFrom(t, p, from) == |Positions(t, p, from)|
    decreases |t| - from, 0
  {
    MatchesCount(t, p, from + |p|);
    PositionsAfterMatch(t, p, from);
  }

  lemma {:induction false} CountAfterMiss(t: string, p: string, from: nat)
    requires |p| > 0 && from + |p| <= |t| && NoSelfOverlap(p) && !WholeWordAt(t, p, from)
    ensures MatchesFrom(t, p, from) == |Positions(t, p, from)|
    decreases |t| - from, 0
  {
    MatchesCount(t, p, from + 1);
    PositionsAfterMiss(t, p, from);
  }

  /** After a whole-word match at `from`, the next one starts at or after
      its end. */
  lemma PositionsAfterMatch(t: string, p: string, from: nat)
    requires |p| > 0 && from + |p| <= |t| && NoSelfOverlap(p) && WholeWordAt(t, p, from)
    ensures |Positions(t, p, from)| == |Positions(t, p, from + |p|)| + 1
  {
    var later := Positions(t, p, from + |p|);
    forall k | from < k < from + |p|
      ensures !WholeWordAt(t, p, k)
    {
      if OccursAt(t, p, k) {
        NoMatchInside(t, p, from, k);
      }
    }
    assert Positions(t, p, from) == later + {from};
    assert from !in later;
  }

  lemma PositionsAfterMiss(t: string, p: string, from: nat)
    requires !WholeWordAt(t, p, from)
    ensures Positions(t, p, from) == Positions(t, p, from + 1)
  {
  }

  /** A pattern whose first or last character occurs nowhere else in it
      overlaps itself in no way at all. */
  lemma UniqueEndNoSelfOverlap(p: string)
    requires |p| > 0
    requires (forall j :: 0 < j < |p| ==> p[j] != p[0]) || (forall j :: 0 <= j < |p| - 1 ==> p[j] != p[|p| - 1])
    ensures NoSelfOverlap(p)
  {
    forall d | 0 < d < |p|
      ensures !SelfOverlap(p, d)
    {
      if forall j :: 0 < j < |p| ==> p[j] != p[0] {
        assert p[d..][0] != p[..|p| - d][0];
      } else {
        assert p[d..][|p| - d - 1] != p[..|p| - d][|p| - d - 1];
      }
    }
  }

  /** "like" inside "likely" is not a whole word; inside "i like it" it is. */
  lemma LikeIsNotLikely()
    ensures MatchesFrom("likely", "like", 0) == 0
    ensures MatchesFrom("i like it", "like", 0) == 1
  {
    assert !WholeWordAt("likely", "like", 0);
    assert WholeWordAt("i like it", "like", 2);
  }

  /** Total matches of the patterns `ps`, in list order. */
  function SumMatches(t: string, ps: seq<string>): nat
    requires NonEmptyPatterns(ps)
  {
    if ps == [] then 0
    else SumMatches(t, ps[..|ps| - 1]) + MatchesFrom(t, ps[|ps| - 1], 0)
  }

  /** Total number of whole-word occurrences of the patterns `ps`. */
  ghost function Occurrences(t: string, ps: seq<string>): nat {
    if ps == [] then 0
    else Occurrences(t, ps[..|ps| - 1]) + |Positions(t, ps[|ps| - 1], 0)|
  }

  lemma {:induction false} SumMatchesCount(t: string, ps: seq<string>)
    requires NonEmptyPatterns(ps)
    requires forall i :: 0 <= i < |ps| ==> NoSelfOverlap(ps[i])
    ensures SumMatches(t, ps) == Occurrences(t, ps)
  {
    if ps != [] {
      var init := ps[..|ps| - 1];
      assert forall i :: 0 <= i < |init| ==> init[i] == ps[i];
      SumMatchesCount(t, init);
      MatchesCount(t, ps[|ps| - 1], 0);
    }
  }

  /** None of the fillers overlaps itself. */
  lemma FillersNoSelfOverlap()
    ensures forall i :: 0 <= i < |Fillers| ==> NoSelfOverlap(Fillers[i])
  {
    forall i | 0 <= i < |Fillers|
      ensures NoSelfOverlap(Fillers[i])
    {
      UniqueEndNoSelfOverlap(Fillers[i]);
    }
  }

  /** The number of filler words `count_filler_words` reports. */
  function FillerCount(text: string): nat {
    SumMatches(Lower(text), Fillers)
  }

  /** The filler count is the number of whole-word occurrences of the
      fillers in the lower-cased text, every occurrence counted. */
  lemma FillerCountIsOccurrences(text: string)
    ensures FillerCount(text) == Occurrences(Lower(text), Fillers)
  {
    FillersNoSelfOverlap();
    SumMatchesCount(Lower(text), Fillers);
  }

  /** A repeated filler is counted once per occurrence. */
  lemma UmUmCountsTwice()
    ensures MatchesFrom("um um", "um", 0) == 2
  {
    assert WholeWordAt("um um", "um", 0);
    assert WholeWordAt("um um", "um", 3);
  }

  /** `count_filler_words`: sums, over the fixed fillers, the whole-word
      matches in the lower-cased text. */
  method CountFillerWords(text: string) returns (count: nat)
    ensures count == FillerCount(text)
  {
    count := 0;
    var textLower := Lower(text);
    for i := 0 to |Fillers|
      invariant count == SumMatches(textLower, Fillers[..i])
    {
      assert Fillers[..i + 1][..i] == Fillers[..i];
      count := count + MatchesFrom(textLower, Fillers[i], 0);
    }
    assert Fillers[..|Fillers|] == Fillers;
  }

  lemma {:induction false} SumMatchesZeroIff(t: string, ps: seq<string>)
    requires NonEmptyPatterns(ps)
    ensures SumMatches(t, ps) == 0 <==>
            forall i, k :: 0 <= i < |ps| && 0 <= k ==> !WholeWordAt(t, ps[i], k)
  {
    if ps != [] {
      var init := ps[..|ps| - 1];
      SumMatchesZeroIff(t, init);
      MatchesZeroIff(t, ps[|ps| - 1], 0);
      assert forall i :: 0 <= i < |init| ==> init[i] == ps[i];
    }
  }

  /** The filler count is 0 exactly when no filler occurs as a whole word in
      the lower-cased text. */
  lemma FillerCountZeroIff(text: string)
    ensures FillerCount(text) == 0 <==>
            forall i, k :: 0 <= i < |Fillers| && 0 <= k ==> !WholeWordAt(Lower(text), Fillers[i], k)
  {
    SumMatchesZeroIff(Lower(text), Fillers);
  }

  /** The filler rate in percent: `count / word_count * 100`, and 100.0 for
      no words, the worst value. */
  function FillerRate(fillerCount: nat, wordCount: nat): (rate: real)
    ensures wordCount == 0 ==> rate == 100.0
    ensures wordCount > 0 && fillerCount == 0 ==> rate == 0.0
    ensures rate >= 0.0
  {
    if wordCount > 0 then (fillerCount as real / wordCount as real) * 100.0 else 100.0
  }

  /** With words present the rate is the percentage of filler words: the
      rate times the word count is 100 times the filler count. */
  lemma FillerRateFormula(fillerCount: nat, wordCount: nat)
    requires wordCount > 0
    ensures FillerRate(fillerCount, wordCount) * wordCount as real == 100.0 * fillerCount as real
  {
  }

  // ---------------------------------------------------------------------
  // Content keywords

  /** Each content dimension and the phrases that satisfy it, in order. */
  const KeywordPhrases: seq<(string, seq<string>)> := [
    ("name", ["i am", "myself", "my name"]),
    ("age", ["i am", "years old"]),
    ("class", ["class", "grade"]),
    ("school", ["school", "university", "college"]),
    ("family", ["family", "parents", "mother", "father", "siblings"]),
    ("hobbies", ["enjoy", "like to", "hobbies", "interests", "play"]),
    ("goals", ["want to be", "my goal", "aspire to", "future"]),
    ("unique point", ["special thing", "fun fact", "one thing people don't know"])
  ]

  /** `any(phrase in text_lower for phrase in phrases)`. */
  predicate AnyPhrase(textLower: string, phrases: seq<string>) {
    exists i :: 0 <= i < |phrases| && Contains(textLower, phrases[i])
  }

  /** `found_details` after the first `n` dimensions. */
  function DetailsUpTo(textLower: string, n: nat): map<string, bool>
    requires n <= |KeywordPhrases|
  {
    if n == 0 then map[]
    else DetailsUpTo(textLower, n - 1)[KeywordPhrases[n - 1].0 := AnyPhrase(textLower, KeywordPhrases[n - 1].1)]
  }

  function KeywordDetails(text: string): map<string, bool> {
    DetailsUpTo(Lower(text), |KeywordPhrases|)
  }

  /** The dimensions marked found. */
  function TrueKeys(m: map<string, bool>): set<string> {
    set k | k in m && m[k]
  }

  function FoundCount(text: string): nat {
    |TrueKeys(KeywordDetails(text))|
  }

  lemma KeywordNamesDistinct()
    ensures forall i, j :: 0 <= i < j < |KeywordPhrases| ==> KeywordPhrases[i].0 != KeywordPhrases[j].0
  {
  }

  lemma {:induction false} DetailsUpToMeaning(textLower: string, n: nat)
    requires n <= |KeywordPhrases|
    ensures forall j :: 0 <= j < n ==>
              KeywordPhrases[j].0 in DetailsUpTo(textLower, n) &&
              DetailsUpTo(textLower, n)[KeywordPhrases[j].0] == AnyPhrase(textLower, KeywordPhrases[j].1)
    ensures forall k :: k in DetailsUpTo(textLower, n) ==> exists j :: 0 <= j < n && k == KeywordPhrases[j].0
  {
    if n > 0 {
      DetailsUpToMeaning(textLower, n - 1);
      KeywordNamesDistinct();
    }
  }

  /** The details map has exactly the eight dimensions as keys, and a
      dimension is true exactly when one of its phrases is a substring of
      the lower-cased text. */
  lemma KeywordDetailsMeaning(text: string)
    ensures forall j :: 0 <= j < |KeywordPhrases| ==>
              KeywordPhrases[j].0 in KeywordDetails(text) &&
              KeywordDetails(text)[KeywordPhrases[j].0] == AnyPhrase(Lower(text), KeywordPhrases[j].1)
    ensures forall k :: k in KeywordDetails(text) ==> exists j :: 0 <= j < |KeywordPhrases| && k == KeywordPhrases[j].0
  {
    DetailsUpToMeaning(Lower(text), |KeywordPhrases|);
  }

  /** "i am" satisfies both the "name" and the "age" dimension. */
  lemma IAmCountsTwice(text: string)
    requires Contains(Lower(text), "i am")
    ensures "name" in KeywordDetails(text) && KeywordDetails(text)["name"]
    ensures "age" in KeywordDetails(text) && KeywordDetails(text)["age"]
  {
    KeywordDetailsMeaning(text);
    assert KeywordPhrases[0].0 == "name" && KeywordPhrases[1].0 == "age";
    assert KeywordPhrases[0].1[0] == "i am";
    assert KeywordPhrases[1].1[0] == "i am";
  }

  /** `check_content_keywords`: the number of dimensions found and the
      per-dimension map. */
  method CheckContentKeywords(text: string) returns (foundKeywords: nat, foundDetails: map<string, bool>)
    ensures foundDetails == KeywordDetails(text)
    ensures foundKeywords == |TrueKeys(foundDetails)|
    ensures foundKeywords <= |KeywordPhrases|
  {
    var textLower := Lower(text);
    foundKeywords := 0;
    foundDetails := map[];
    KeywordNamesDistinct();
    for i := 0 to |KeywordPhrases|
      invariant foundDetails == DetailsUpTo(textLower, i)
      invariant foundKeywords == |TrueKeys(foundDetails)|
      invariant foundKeywords <= i
      invariant forall j :: i <= j < |KeywordPhrases| ==> KeywordPhrases[j].0 !in foundDetails
    {
      var (key, phrases) := KeywordPhrases[i];
      FoundStep(textLower, i);
      if AnyPhrase(textLower, phrases) {
        foundKeywords := foundKeywords + 1;
        foundDetails := foundDetails[key := true];
      } else {
        foundDetails := foundDetails[key := false];
      }
    }
  }

  /** Marking a dimension not seen before adds one to the count exactly
      when one of its phrases occurs. */
  lemma FoundStep(textLower: string, i: nat)
    requires i < |KeywordPhrases| && KeywordPhrases[i].0 !in DetailsUpTo(textLower, i)
    ensures |TrueKeys(DetailsUpTo(textLower, i + 1))| ==
            |TrueKeys(DetailsUpTo(textLower, i))| + (if AnyPhrase(textLower, KeywordPhrases[i].1) then 1 else 0)
  {
    var before := DetailsUpTo(textLower, i);
    var key := KeywordPhrases[i].0;
    if AnyPhrase(textLower, KeywordPhrases[i].1) {
      assert TrueKeys(DetailsUpTo(textLower, i + 1)) == TrueKeys(before) + {key};
    } else {
      assert TrueKeys(DetailsUpTo(textLower, i + 1)) == TrueKeys(before);
    }
  }


  /** The dimensions not found, in dimension order, as the feedback lists them. */
  function MissingKeys(details: map<string, bool>): (missing: seq<string>)
    ensures forall k :: k in missing ==> k in details && !details[k]
  {
    MissingFrom(details, 0)
  }

  function MissingFrom(details: map<string, bool>, from: nat): (missing: seq<string>)
    ensures forall k :: k in missing ==> k in details && !details[k]
    decreases |KeywordPhrases| - from
  {
    if from >= |KeywordPhrases| then []
    else
      var key := KeywordPhrases[from].0;
      var rest := MissingFrom(details, from + 1);
      if key in details && !details[key] then [key] + rest else rest
  }

  /** Dimension `x` comes strictly before dimension `y`. */
  ghost predicate DimensionBefore(x: string, y: string) {
    exists i, j :: 0 <= i < j < |KeywordPhrases| && x == KeywordPhrases[i].0 && y == KeywordPhrases[j].0
  }

  /** The list follows dimension order, each dimension at most once. */
  ghost predicate InDimensionOrder(m: seq<string>) {
    forall a, b :: 0 <= a < b < |m| ==> DimensionBefore(m[a], m[b])
  }

  lemma {:induction false} MissingFromAfter(details: map<string, bool>, from: nat)
    ensures forall k :: k in MissingFrom(details, from) ==>
              exists i :: from <= i < |KeywordPhrases| && k == KeywordPhrases[i].0
    decreases |KeywordPhrases| - from
  {
    if from < |KeywordPhrases| {
      MissingFromAfter(details, from + 1);
    }
  }

  lemma {:induction false} MissingFromOrdered(details: map<string, bool>, from: nat)
    ensures InDimensionOrder(MissingFrom(details, from))
    decreases |KeywordPhrases| - from
  {
    if from < |KeywordPhrases| {
      var key := KeywordPhrases[from].0;
      var rest := MissingFrom(details, from + 1);
      MissingFromOrdered(details, from + 1);
      if key in details && !details[key] {
        forall y | y in rest
          ensures DimensionBefore(key, y)
        {
          HeadBeforeRest(details, from, y);
        }
        ConsInOrder(key, rest);
      }
    }
  }

  /** A dimension placed before a list in dimension order keeps the order
      when it comes before each of the list's dimensions. */
  lemma ConsInOrder(x: string, rest: seq<string>)
    requires InDimensionOrder(rest)
    requires forall y :: y in rest ==> DimensionBefore(x, y)
    ensures InDimensionOrder([x] + rest)
  {
    var m := [x] + rest;
    forall a, b | 0 <= a < b < |m|
      ensures DimensionBefore(m[a], m[b])
    {
      assert m[b] == rest[b - 1];
      if a > 0 {
        assert m[a] == rest[a - 1];
      }
    }
  }


  /** A dimension comes before every missing dimension listed after it. */
  lemma HeadBeforeRest(details: map<string, bool>, from: nat, y: string)
    requires from < |KeywordPhrases| && y in MissingFrom(details, from + 1)
    ensures DimensionBefore(KeywordPhrases[from].0, y)
  {
    MissingFromAfter(details, from + 1);
    var j :| from + 1 <= j < |KeywordPhrases| && y == KeywordPhrases[j].0;
    assert 0 <= from < j < |KeywordPhrases|;
  }

  lemma {:induction false} MissingFromComplete(details: map<string, bool>, from: nat)
    ensures forall j :: from <= j < |KeywordPhrases| && KeywordPhrases[j].0 in details && !details[KeywordPhrases[j].0] ==>
              KeywordPhrases[j].0 in MissingFrom(details, from)
    decreases |KeywordPhrases| - from
  {
    if from < |KeywordPhrases| {
      MissingFromComplete(details, from + 1);
    }
  }

  /** The missing list names exactly the dimensions none of whose phrases
      occurs in the lower-cased text, in dimension order, each once. */
  lemma MissingKeysMeaning(text: string)
    ensures forall j :: 0 <= j < |KeywordPhrases| ==>
              (KeywordPhrases[j].0 in MissingKeys(KeywordDetails(text)) <==> !AnyPhrase(Lower(text), KeywordPhrases[j].1))
    ensures InDimensionOrder(MissingKeys(KeywordDetails(text)))
  {
    KeywordDetailsMeaning(text);
    MissingFromComplete(KeywordDetails(text), 0);
    MissingFromOrdered(KeywordDetails(text), 0);
  }

  // ---------------------------------------------------------------------
  // Salutation and flow

  /** Openings accepted by the salutation metric, after leading whitespace. */
  const SalutationGreetings: seq<string> := ["hello", "good morning", "good day", "greetings"]

  /** Openings accepted by `check_flow`, with no leading trim. */
  const FlowGreetings: seq<string> := ["hello", "good morning", "greetings"]

  const Closings: seq<string> := ["thank you", "that is all", "i'm done"]

  /** Some phrase of `ps` is a prefix of `s`. */
  predicate StartsWithAny(s: string, ps: seq<string>) {
    exists i :: 0 <= i < |ps| && StartsWith(s, ps[i])
  }

  /** Some phrase of `ps` occurs in `s`. */
  predicate ContainsAny(s: string, ps: seq<string>) {
    exists i :: 0 <= i < |ps| && Contains(s, ps[i])
  }

  /** `re.match(r'^\s*(hello|good (morning|day)|greetings)', text.lower())`. */
  predicate HasSalutation(text: string) {
    StartsWithAny(TrimLeft(Lower(text)), SalutationGreetings)
  }

  /** `re.match(r'^\s*(hello|good (morning|day)|greetings)', ...)`: after
      some run of leading whitespace, the lower-cased text starts with a
      salutation greeting. */
  lemma HasSalutationMeaning(text: string)
    ensures HasSalutation(text) <==>
      exists n :: 0 <= n <= |text| && (forall j :: 0 <= j < n ==> IsSpace(Lower(text)[j]))
                  && StartsWithAny(Lower(text)[n..], SalutationGreetings)
  {
    var s := Lower(text);
    var r := TrimLeft(s);
    if HasSalutation(text) {
      var m := |s| - |r|;
      assert r == s[m..];
    }
    if exists n :: 0 <= n <= |text| && (forall j :: 0 <= j < n ==> IsSpace(s[j])) && StartsWithAny(s[n..], SalutationGreetings) {
      var n :| 0 <= n <= |text| && (forall j :: 0 <= j < n ==> IsSpace(s[j])) && StartsWithAny(s[n..], SalutationGreetings);
      GreetingStartsNonSpace(s[n..]);
      TrimLeftAt(s, n);
    }
  }

  /** Every salutation greeting begins with a non-space character. */
  lemma GreetingStartsNonSpace(x: string)
    requires StartsWithAny(x, SalutationGreetings)
    ensures |x| > 0 && !IsSpace(x[0])
  {
    var i :| 0 <= i < |SalutationGreetings| && StartsWith(x, SalutationGreetings[i]);
    var p := SalutationGreetings[i];
    assert x[0] == x[..|p|][0] == p[0];
    assert p[0] == 'h' || p[0] == 'g';
  }

  /** Trimming stops exactly at the first non-space character. */
  lemma {:induction false} TrimLeftAt(s: string, n: nat)
    requires n <= |s| && (forall j :: 0 <= j < n ==> IsSpace(s[j]))
    requires n == |s| || !IsSpace(s[n])
    ensures TrimLeft(s) == s[n..]
  {
    if n > 0 {
      assert IsSpace(s[0]);
      TrimLeftAt(s[1..], n - 1);
      assert s[1..][n - 1..] == s[n..];
    }
  }

  /** `check_flow`: 1 when the lower-cased text starts with a greeting and a
      closing phrase occurs in its last 50 characters, else 0. */
  function CheckFlow(text: string): (flow: nat)
    ensures flow <= 1
  {
    var textLower := Lower(text);
    if StartsWithAny(textLower, FlowGreetings) && ContainsAny(Tail(textLower, 50), Closings) then 1 else 0
  }

  /** Flow holds exactly when the lower-cased text, untrimmed, starts with a
      greeting and some closing phrase lies wholly within its last 50
      characters. */
  lemma CheckFlowMeaning(text: string)
    ensures CheckFlow(text) == 1 <==>
      StartsWithAny(Lower(text), FlowGreetings) &&
      (exists i, k :: 0 <= i < |Closings| && |text| - 50 <= k && OccursAt(Lower(text), Closings[i], k))
  {
    var textLower := Lower(text);
    forall i | 0 <= i < |Closings|
      ensures Contains(Tail(textLower, 50), Closings[i]) <==>
              exists k :: |textLower| - 50 <= k && OccursAt(textLower, Closings[i], k)
    {
      ContainsTail(textLower, 50, Closings[i]);
    }
  }

  /** Whenever `check_flow` sees a greeting, so does the salutation metric. */
  lemma FlowImpliesSalutation(text: string)
    requires CheckFlow(text) == 1
    ensures HasSalutation(text)
  {
    FlowGreetingIsSalutation(Lower(text));
  }

  /** A text that starts with a flow greeting has no leading whitespace, and
      every flow greeting is also a salutation greeting. */
  lemma FlowGreetingIsSalutation(s: string)
    requires StartsWithAny(s, FlowGreetings)
    ensures StartsWithAny(TrimLeft(s), SalutationGreetings)
  {
    var i :| 0 <= i < |FlowGreetings| && StartsWith(s, FlowGreetings[i]);
    var p := FlowGreetings[i];
    var j := if i == 2 then 3 else i;
    assert p == SalutationGreetings[j];
    assert s[0] == s[..|p|][0] == p[0];
    assert p[0] == 'h' || p[0] == 'g';
    assert TrimLeft(s) == s;
    assert StartsWith(TrimLeft(s), SalutationGreetings[j]);
  }

  /** The converse fails: a flow greeting after a leading space still counts
      as a salutation, but never as flow. */
  lemma IndentedGreetingHasNoFlow(text: string)
    requires StartsWithAny(Lower(text), FlowGreetings)
    ensures HasSalutation(" " + text)
    ensures CheckFlow(" " + text) == 0
  {
    var indented := Lower(" " + text);
    assert indented == " " + Lower(text);
    assert indented[1..] == Lower(text);
    FlowGreetingIsSalutation(Lower(text));
    assert TrimLeft(indented) == TrimLeft(Lower(text));
    SpaceStartsNoGreeting(indented);
  }

  lemma SpaceStartsNoGreeting(s: string)
    requires |s| > 0 && IsSpace(s[0])
    ensures !StartsWithAny(s, FlowGreetings)
  {
    forall i | 0 <= i < |FlowGreetings|
      ensures !StartsWith(s, FlowGreetings[i])
    {
      var p := FlowGreetings[i];
      assert p[0] == 'h' || p[0] == 'g';
    }
  }

  // ---------------------------------------------------------------------
  // Grammar proxy

  /** The fixed error rate standing in for a grammar checker. */
  const MockErrorsPer100Words: real := 0.8

  /** `1 - min(errors_per_100_words / 10, 1)`. */
  function GrammarScoreRaw(errorsPer100Words: real): (g: real)
    ensures errorsPer100Words >= 0.0 ==> 0.0 <= g <= 1.0
    ensures errorsPer100Words >= 10.0 ==> g == 0.0
    ensures 0.0 <= errorsPer100Words <= 10.0 ==> g * 10.0 == 10.0 - errorsPer100Words
  {
    1.0 - (if errorsPer100Words / 10.0 <= 1.0 then errorsPer100Words / 10.0 else 1.0)
  }
}
