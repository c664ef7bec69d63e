/**
 * One row of the review table and the vote column derived from it.
 */
module Reviews {

  /** A review row: who wrote it, for which product, its star rating, its
      helpful votes, its total votes and its age in days. */
  datatype Review = Review(
    reviewerId: string,
    productId: string,
    overall: real,
    helpfulYes: int,
    totalVote: int,
    dayDiff: int)

  /** The helpful-vote count is a count and does not exceed the total. */
  predicate VotesConsistent(r: Review) {
    0 <= r.helpfulYes <= r.totalVote
  }

  /** The data-quality invariant the input is expected to satisfy. */
  predicate WellFormed(r: Review) {
    && 1.0 <= r.overall <= 5.0
    && VotesConsistent(r)
    && 0 <= r.dayDiff
  }

  /** The "not helpful" vote count: all votes minus the helpful ones. */
  function HelpfulNo(r: Review): int {
    r.totalVote - r.helpfulYes
  }

  /** With 0 <= helpful_yes <= total_vote, the derived count is a genuine count
      and the two vote counts add back up to the total. */
  lemma HelpfulNoSplitsVotes(r: Review)
    requires VotesConsistent(r)
    ensures 0 <= HelpfulNo(r) <= r.totalVote
    ensures r.helpfulYes + HelpfulNo(r) == r.totalVote
    ensures HelpfulNo(r) == 0 <==> r.helpfulYes == r.totalVote
  {
  }

  /** The derived count is negative exactly on rows that break the invariant
      helpful_yes <= total_vote. */
  lemma HelpfulNoNegativeIffMalformed(r: Review)
    ensures HelpfulNo(r) < 0 <==> r.helpfulYes > r.totalVote
  {
  }
}
