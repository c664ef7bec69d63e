/**
 * The composite review score that combines the rescaled helpful-vote count,
 * the rescaled total-vote count and the star rating with percentage weights.
 */
module Composite {
  import opened Arith

  /** The default weights, in percent: helpful votes, total votes, rating. */
  const HelpfulYesWeight: real := 32.0
  const TotalVoteWeight: real := 26.0
  const OverallWeight: real := 42.0

  /** The weighted sum of the three signals, each weight taken over 100. */
  function WeightedSortingScore(helpfulYesScaled: real, totalVoteScaled: real, overall: real, w1: real, w2: real, w3: real): real {
    helpfulYesScaled * w1 / 100.0 + totalVoteScaled * w2 / 100.0 + overall * w3 / 100.0
  }

  /** The composite score with the default weights 32/26/42. */
  function DefaultWeightedSortingScore(helpfulYesScaled: real, totalVoteScaled: real, overall: real): real {
    WeightedSortingScore(helpfulYesScaled, totalVoteScaled, overall, HelpfulYesWeight, TotalVoteWeight, OverallWeight)
  }

  /** With non-negative weights totalling 100, the score of three signals in
      [lo, hi] is itself in [lo, hi]. */
  lemma ScoreWithin(hy: real, tv: real, ov: real, w1: real, w2: real, w3: real, lo: real, hi: real)
    requires lo <= hy <= hi && lo <= tv <= hi && lo <= ov <= hi
    requires 0.0 <= w1 && 0.0 <= w2 && 0.0 <= w3 && w1 + w2 + w3 == 100.0
    ensures lo <= WeightedSortingScore(hy, tv, ov, w1, w2, w3) <= hi
  {
    ProductNonNegative(hy - lo, w1); ProductNonNegative(hi - hy, w1);
    ProductNonNegative(tv - lo, w2); ProductNonNegative(hi - tv, w2);
    ProductNonNegative(ov - lo, w3); ProductNonNegative(hi - ov, w3);
    assert lo * w1 + lo * w2 + lo * w3 == lo * 100.0;
    assert hi * w1 + hi * w2 + hi * w3 == hi * 100.0;
  }

  /** The default weights total 100, so three signals on the 1..5 scale give a
      score on the 1..5 scale. */
  lemma DefaultScoreOnRatingScale(hy: real, tv: real, ov: real)
    requires 1.0 <= hy <= 5.0 && 1.0 <= tv <= 5.0 && 1.0 <= ov <= 5.0
    ensures HelpfulYesWeight + TotalVoteWeight + OverallWeight == 100.0
    ensures 1.0 <= DefaultWeightedSortingScore(hy, tv, ov) <= 5.0
  {
    ScoreWithin(hy, tv, ov, HelpfulYesWeight, TotalVoteWeight, OverallWeight, 1.0, 5.0);
  }

  /** With non-negative weights, raising any signal never lowers the score. */
  lemma ScoreMonotone(hy: real, tv: real, ov: real, hy': real, tv': real, ov': real, w1: real, w2: real, w3: real)
    requires hy <= hy' && tv <= tv' && ov <= ov'
    requires 0.0 <= w1 && 0.0 <= w2 && 0.0 <= w3
    ensures WeightedSortingScore(hy, tv, ov, w1, w2, w3) <= WeightedSortingScore(hy', tv', ov', w1, w2, w3)
  {
    ProductNonNegative(hy' - hy, w1);
    ProductNonNegative(tv' - tv, w2);
    ProductNonNegative(ov' - ov, w3);
  }

  /** A five-star review whose vote counts are both at the bottom of the
      scale scores 0.32 + 0.26 + 2.1 = 2.68. */
  lemma DefaultScoreOfUnvotedFiveStars()
    ensures DefaultWeightedSortingScore(1.0, 1.0, 5.0) == 2.68
  {
  }
}
