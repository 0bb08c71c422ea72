/** The bucket matcher: walk an ordered bucket list, take the first bucket
    whose range holds the value, and fall back to the last bucket when none
    does. Bucket order is authoritative; no ordering is inferred from the
    ranges. */
module Matcher {
  import opened Wrappers
  import opened Rubric

  /** The range predicate: strict at open ends, inclusive at both closed ends. */
  predicate Holds(r: Range, v: real) {
    match r
    case Lt(x) => v < x
    case Gt(x) => v > x
    case Closed(lo, hi) => lo <= v <= hi
  }

  /** Index of the first bucket, from `from` on, whose range holds `v`. */
  function FirstMatchFrom(bs: seq<Bucket>, v: real, from: nat): (m: Option<nat>)
    requires from <= |bs|
    ensures m.Some? ==> from <= m.value < |bs| && Holds(bs[m.value].range, v)
    ensures m.Some? ==> forall j :: from <= j < m.value ==> !Holds(bs[j].range, v)
    ensures m.None? <==> forall j :: from <= j < |bs| ==> !Holds(bs[j].range, v)
    decreases |bs| - from
  {
    if from == |bs| then None
    else if Holds(bs[from].range, v) then Some(from)
    else FirstMatchFrom(bs, v, from + 1)
  }

  /** The bucket the matcher settles on: the first holding one in list
      order, else the last one. */
  function Select(bs: seq<Bucket>, v: real): Bucket
    requires |bs| > 0
  {
    match FirstMatchFrom(bs, v, 0)
    case Some(i) => bs[i]
    case None => bs[|bs| - 1]
  }

  /** The selected bucket is the first bucket whose range holds the value,
      or the last bucket when no range holds it; either way it is one of
      the list's buckets. */
  lemma SelectMeaning(bs: seq<Bucket>, v: real)
    requires |bs| > 0
    ensures forall i :: 0 <= i < |bs| && Holds(bs[i].range, v) && (forall j :: 0 <= j < i ==> !Holds(bs[j].range, v))
                        ==> Select(bs, v) == bs[i]
    ensures (forall i :: 0 <= i < |bs| ==> !Holds(bs[i].range, v)) ==> Select(bs, v) == bs[|bs| - 1]
    ensures exists i :: 0 <= i < |bs| && Select(bs, v) == bs[i]
  {
  }

  /** `get_score_and_feedback`: the score and feedback of the first bucket
      whose range holds the value, or of the last bucket when none does. */
  method GetScoreAndFeedback(value: real, buckets: seq<Bucket>) returns (score: nat, feedback: Message)
    requires |buckets| > 0
    ensures score == Select(buckets, value).score
    ensures feedback == Select(buckets, value).feedback
  {
    var bestMatch: Option<Bucket> := None;
    var i := 0;
    while i < |buckets|
      invariant 0 <= i <= |buckets|
      invariant forall j :: 0 <= j < i ==> !Holds(buckets[j].range, value)
    {
      if Holds(buckets[i].range, value) {
        bestMatch := Some(buckets[i]);
        break;
      }
      i := i + 1;
    }
    if bestMatch.None? {
      score, feedback := buckets[|buckets| - 1].score, buckets[|buckets| - 1].feedback;
    } else {
      score, feedback := bestMatch.value.score, bestMatch.value.feedback;
    }
  }

  /** Order decides, not tightness: when two buckets both hold, the matcher
      never settles on the later one unless it is the very same bucket. */
  lemma {:induction false} EarlierBucketWins(bs: seq<Bucket>, v: real, i: nat, k: nat)
    requires i < k < |bs|
    requires Holds(bs[i].range, v) && Holds(bs[k].range, v)
    ensures Select(bs, v) == bs[k] ==> exists j :: 0 <= j <= i && bs[j] == bs[k]
  {
    var m := FirstMatchFrom(bs, v, 0);
    assert m.Some? && m.value <= i;
  }

  // Score tables of the four bucket lists of the catalog. Each states the
  // score for every value and, separately, exactly which values match no
  // bucket and fall through to the last one.

  /** Speech rate: 111..140 scores 10, above 140 and 81..110 score 6, and
      everything else scores 2, including exactly 80 and the values strictly
      between 80 and 81 and between 110 and 111, which match no bucket. */
  lemma WpmScore(wpm: real)
    ensures Select(WpmBuckets, wpm).score ==
      if 111.0 <= wpm <= 140.0 then 10
      else if wpm > 140.0 then 6
      else if 81.0 <= wpm <= 110.0 then 6
      else 2
    ensures FirstMatchFrom(WpmBuckets, wpm, 0).None? <==>
      (80.0 <= wpm < 81.0 || 110.0 < wpm < 111.0)
  {
  }

  /** Grammar proxy: above 0.9 scores 10, 0.7..0.89 scores 8, 0.5..0.69
      scores 6, 0.3..0.49 scores 4, and all else 2; 0.9 itself and the gaps
      (0.89, 0.9), (0.69, 0.7), (0.49, 0.5) match no bucket. */
  lemma GrammarScore(g: real)
    ensures Select(GrammarBuckets, g).score ==
      if g > 0.9 then 10
      else if 0.7 <= g <= 0.89 then 8
      else if 0.5 <= g <= 0.69 then 6
      else if 0.3 <= g <= 0.49 then 4
      else 2
    ensures FirstMatchFrom(GrammarBuckets, g, 0).None? <==>
      (0.89 < g <= 0.9 || 0.69 < g < 0.7 || 0.49 < g < 0.5)
  {
  }

  /** Vocabulary richness: 0.9..1.0 scores 10, 0.7..0.89 scores 8, 0.5..0.69
      scores 6, 0.3..0.49 scores 4, and all else 2; the gaps (0.89, 0.9),
      (0.69, 0.7), (0.49, 0.5), (0.29, 0.3) and anything outside 0..1 match
      no bucket. */
  lemma TtrScore(ttr: real)
    ensures Select(TtrBuckets, ttr).score ==
      if 0.9 <= ttr <= 1.0 then 10
      else if 0.7 <= ttr <= 0.89 then 8
      else if 0.5 <= ttr <= 0.69 then 6
      else if 0.3 <= ttr <= 0.49 then 4
      else 2
    ensures FirstMatchFrom(TtrBuckets, ttr, 0).None? <==>
      (ttr < 0.0 || 0.29 < ttr < 0.3 || 0.49 < ttr < 0.5 || 0.69 < ttr < 0.7 || 0.89 < ttr < 0.9 || ttr > 1.0)
  {
  }

  /** Filler rate: below 1.0 scores 30, 1.0..1.9 scores 25 (so exactly 1.0
      scores 25), 2.0..2.9 scores 20, 3.0..3.9 scores 15, 4.0..4.9 scores 10,
      and all else 5; the gaps (1.9, 2.0), (2.9, 3.0), (3.9, 4.0) and
      (4.9, 5.0], 5.0 included, match no bucket. */
  lemma FillerScore(rate: real)
    ensures Select(FillerBuckets, rate).score ==
      if rate < 1.0 then 30
      else if 1.0 <= rate <= 1.9 then 25
      else if 2.0 <= rate <= 2.9 then 20
      else if 3.0 <= rate <= 3.9 then 15
      else if 4.0 <= rate <= 4.9 then 10
      else 5
    ensures FirstMatchFrom(FillerBuckets, rate, 0).None? <==>
      (1.9 < rate < 2.0 || 2.9 < rate < 3.0 || 3.9 < rate < 4.0 || 4.9 < rate <= 5.0)
  {
  }
}
