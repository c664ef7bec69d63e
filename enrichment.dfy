/**
 * The review table with its derived columns appended, and the ranked views
 * taken from it.
 */
module Enrichment {
  import opened Reviews
  import opened Helpfulness
  import opened Composite
  import opened Ranking

  /** A review together with the columns derived from it. */
  datatype ScoredReview = ScoredReview(
    review: Review,
    helpfulYesScaled: real,
    totalVoteScaled: real,
    weightedSortingScore: real,
    helpfulNo: int,
    scorePosNegDiff: int,
    scoreAverageRating: real,
    wilsonLowerBound: real)

  /** Appends the derived columns to one review. The two rescaled vote columns
      are supplied, as are the inverse normal distribution function and the
      square root that the Wilson bound needs. */
  function ScoreReview(r: Review, helpfulYesScaled: real, totalVoteScaled: real,
                       confidence: real, ppf: real -> real, sqrt: real -> real): ScoredReview
    requires VotesConsistent(r)
  {
    var no := HelpfulNo(r);
    ScoredReview(
      r,
      helpfulYesScaled,
      totalVoteScaled,
      DefaultWeightedSortingScore(helpfulYesScaled, totalVoteScaled, r.overall),
      no,
      ScorePosNegDiff(r.helpfulYes, no),
      ScoreAverageRating(r.helpfulYes, no),
      WilsonLowerBound(r.helpfulYes, no, confidence, ppf, sqrt))
  }

  /** The whole table, row by row: one scored row per review, in order, with
      the review's own columns left as they were. */
  function Enrich(rs: seq<Review>, helpfulYesScaled: seq<real>, totalVoteScaled: seq<real>,
                  confidence: real, ppf: real -> real, sqrt: real -> real): (table: seq<ScoredReview>)
    requires |helpfulYesScaled| == |rs| && |totalVoteScaled| == |rs|
    requires forall i :: 0 <= i < |rs| ==> VotesConsistent(rs[i])
    ensures |table| == |rs|
    ensures forall i :: 0 <= i < |rs| ==>
      && table[i].review == rs[i]
      && table[i].helpfulYesScaled == helpfulYesScaled[i]
      && table[i].totalVoteScaled == totalVoteScaled[i]
  {
    seq(|rs|, i requires 0 <= i < |rs| =>
      ScoreReview(rs[i], helpfulYesScaled[i], totalVoteScaled[i], confidence, ppf, sqrt))
  }

  /** What the derived columns of a well-formed review satisfy: the two vote
      counts add up to the total, the vote difference is twice the helpful
      votes minus the total, the share of helpful votes is a fraction of the
      total in [0, 1], and the composite score stays on the 1..5 scale. */
  predicate DerivedColumnsHold(r: Review, s: ScoredReview) {
    && s.review == r
    && 0 <= s.helpfulNo && r.helpfulYes + s.helpfulNo == r.totalVote
    && s.scorePosNegDiff == 2 * r.helpfulYes - r.totalVote
    && 0.0 <= s.scoreAverageRating <= 1.0
    && (r.totalVote == 0 ==> s.scoreAverageRating == 0.0)
    && (r.totalVote != 0 ==> s.scoreAverageRating * r.totalVote as real == r.helpfulYes as real)
    && 1.0 <= s.weightedSortingScore <= 5.0
  }

  /** The derived columns of a well-formed review, with rescaled columns on
      the 1..5 scale, satisfy `DerivedColumnsHold`. */
  lemma ScoredReviewColumns(r: Review, helpfulYesScaled: real, totalVoteScaled: real,
                            confidence: real, ppf: real -> real, sqrt: real -> real)
    requires WellFormed(r)
    requires 1.0 <= helpfulYesScaled <= 5.0 && 1.0 <= totalVoteScaled <= 5.0
    ensures DerivedColumnsHold(r, ScoreReview(r, helpfulYesScaled, totalVoteScaled, confidence, ppf, sqrt))
  {
    HelpfulNoSplitsVotes(r);
    var no := HelpfulNo(r);
    AverageRatingRange(r.helpfulYes, no);
    AverageRatingIsShare(r.helpfulYes, no);
    DefaultScoreOnRatingScale(helpfulYesScaled, totalVoteScaled, r.overall);
  }

  /** With a non-negative quantile and an exact square root, a review's
      Wilson bound lies between 0 and its share of helpful votes. */
  lemma ScoredReviewWilson(r: Review, helpfulYesScaled: real, totalVoteScaled: real,
                           confidence: real, ppf: real -> real, sqrt: real -> real)
    requires VotesConsistent(r)
    requires 0.0 <= Quantile(confidence, ppf)
    requires RootIsExact(r.helpfulYes, HelpfulNo(r), confidence, ppf, sqrt)
    ensures var s := ScoreReview(r, helpfulYesScaled, totalVoteScaled, confidence, ppf, sqrt);
      0.0 <= s.wilsonLowerBound <= s.scoreAverageRating
  {
    WilsonBetweenZeroAndShare(r.helpfulYes, HelpfulNo(r), confidence, ppf, sqrt);
  }

  /** Every row of the enriched table of well-formed reviews satisfies
      `DerivedColumnsHold` for its review. */
  lemma EnrichedTableColumns(rs: seq<Review>, helpfulYesScaled: seq<real>, totalVoteScaled: seq<real>,
                             confidence: real, ppf: real -> real, sqrt: real -> real)
    requires |helpfulYesScaled| == |rs| && |totalVoteScaled| == |rs|
    requires forall i :: 0 <= i < |rs| ==> WellFormed(rs[i])
    requires forall i :: 0 <= i < |rs| ==> 1.0 <= helpfulYesScaled[i] <= 5.0 && 1.0 <= totalVoteScaled[i] <= 5.0
    ensures forall i :: 0 <= i < |rs| ==> VotesConsistent(rs[i])
    ensures var table := Enrich(rs, helpfulYesScaled, totalVoteScaled, confidence, ppf, sqrt);
      forall i :: 0 <= i < |table| ==> DerivedColumnsHold(rs[i], table[i])
  {
    var table := Enrich(rs, helpfulYesScaled, totalVoteScaled, confidence, ppf, sqrt);
    forall i | 0 <= i < |table|
      ensures DerivedColumnsHold(rs[i], table[i])
    {
      assert table[i] == ScoreReview(rs[i], helpfulYesScaled[i], totalVoteScaled[i], confidence, ppf, sqrt);
      ScoredReviewColumns(rs[i], helpfulYesScaled[i], totalVoteScaled[i], confidence, ppf, sqrt);
    }
  }

  /** With a non-negative quantile and an exact square root for every row, the
      Wilson column of the enriched table lies, row by row, between 0 and the
      row's share of helpful votes. */
  lemma EnrichedTableWilson(rs: seq<Review>, helpfulYesScaled: seq<real>, totalVoteScaled: seq<real>,
                            confidence: real, ppf: real -> real, sqrt: real -> real)
    requires |helpfulYesScaled| == |rs| && |totalVoteScaled| == |rs|
    requires 0.0 <= Quantile(confidence, ppf)
    requires forall i :: 0 <= i < |rs| ==>
      VotesConsistent(rs[i]) && RootIsExact(rs[i].helpfulYes, HelpfulNo(rs[i]), confidence, ppf, sqrt)
    ensures var table := Enrich(rs, helpfulYesScaled, totalVoteScaled, confidence, ppf, sqrt);
      forall i :: 0 <= i < |table| ==> 0.0 <= table[i].wilsonLowerBound <= table[i].scoreAverageRating
  {
    var table := Enrich(rs, helpfulYesScaled, totalVoteScaled, confidence, ppf, sqrt);
    forall i | 0 <= i < |table|
      ensures 0.0 <= table[i].wilsonLowerBound <= table[i].scoreAverageRating
    {
      ScoredReviewWilson(rs[i], helpfulYesScaled[i], totalVoteScaled[i], confidence, ppf, sqrt);
    }
  }

  // ---------------------------------------------------------------------------
  // Ranked views
  // ---------------------------------------------------------------------------

  /** The columns the table is sorted by. */
  datatype Column =
    | ByOverall
    | ByHelpfulYes
    | ByTotalVote
    | ByWeightedSortingScore
    | ByWilsonLowerBound
    | ByScoreAverageRating
    | ByScorePosNegDiff

  /** The value of a column in a row, as a number. */
  function ColumnValue(c: Column, s: ScoredReview): real {
    match c
    case ByOverall => s.review.overall
    case ByHelpfulYes => s.review.helpfulYes as real
    case ByTotalVote => s.review.totalVote as real
    case ByWeightedSortingScore => s.weightedSortingScore
    case ByWilsonLowerBound => s.wilsonLowerBound
    case ByScoreAverageRating => s.scoreAverageRating
    case ByScorePosNegDiff => s.scorePosNegDiff as real
  }

  /** The table sorted by a column, highest first, cut to its first twenty
      rows: min(20, n) rows of the table, in non-increasing order of the
      column, none below a row left out. */
  function RankBy(table: seq<ScoredReview>, c: Column): (top: seq<ScoredReview>)
    ensures |top| == if |table| < 20 then |table| else 20
    ensures forall i, j :: 0 <= i < j < |top| ==> ColumnValue(c, top[i]) >= ColumnValue(c, top[j])
    ensures multiset(top) <= multiset(table)
    ensures forall x, y :: x in top && y in multiset(table) - multiset(top) ==> ColumnValue(c, y) <= ColumnValue(c, x)
  {
    Top20(table, (s: ScoredReview) => ColumnValue(c, s))
  }
}
