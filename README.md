# Amazon review rating and ranking — a Dafny model

This project models the scoring core of a script that rates one Amazon
product and ranks its reviews. Each review row carries a star rating
(`overall`), a helpful-vote count (`helpful_yes`), a total-vote count
(`total_vote`) and its age in days (`day_diff`). The script:

- derives a "not helpful" count, `helpful_no = total_vote - helpful_yes`;
- scores each review by three helpfulness scorers. The first is the vote
  difference. The second is the share of helpful votes, which is 0 when there
  are no votes. The third is the Wilson lower bound;
- averages the product's rating in three ways: the plain mean, the mean of
  the last 30 days, and a time-based weighted average. The weighted average
  puts reviews into four age buckets (≤ 30, 31–90, 91–180, > 180 days). It
  combines the bucket means with percentage weights 30/28/22/22;
- combines two rescaled vote counts and the rating into a composite score
  with weights 32/26/42;
- sorts the table by a score, highest first, and shows the first 20 rows.

The model is pure: functions over `seq<Review>` and lemmas about them.

| file | module | what it holds |
|---|---|---|
| `reviews.dfy` | `Reviews` | the review record, its data-quality predicates, `helpful_no` |
| `helpfulness.dfy` | `Helpfulness` | the three helpfulness scorers |
| `time_weighted.dfy` | `TimeWeighted` | age buckets, means, the time-based weighted average and its corrected form |
| `composite.dfy` | `Composite` | the composite score |
| `ranking.dfy` | `Ranking` | descending sort and top-n selection over any score |
| `enrichment.dfy` | `Enrichment` | the table with derived columns, and the ranked views |
| `arith.dfy` | `Arith` | facts about real multiplication and division used by the proofs |
| `wrappers.dfy` | `Wrappers` | `Option`, used for an undefined mean |

Modelling decisions:

- The script's floating-point numbers are Dafny `real`s. All arithmetic is
  therefore exact. Rounding is not modelled.
- The mean of an empty selection is NaN in pandas. NaN spreads through the
  weighted sum. Here that value is `None`: `TimeBasedWeightedAverage` is
  `None` exactly when some bucket is empty.
- The Wilson bound calls two library routines: an inverse normal
  distribution function and a square root. Both are function parameters
  (`ppf`, `sqrt`). Its bounds are proved under two hypotheses. The quantile
  must be non-negative. `sqrt` must return the exact root of the value the
  bound asks it for.
- The two rescaled vote columns are inputs to the model.
- Row-wise `apply` is a map over the sequence of reviews (`Enrich`).
- The first bucket of the time-based average (line 79) filters on the
  global table `df`, not on the function's argument. The model filters on
  the argument. The script's only call passes `df` itself (line 85), so
  both give the same result there.
- Three behaviours of the code are kept as written, although a reader might
  expect otherwise:
  - An empty bucket makes the weighted average undefined. It is not
    skipped.
  - Sorting has no secondary tie-break key.
  - The default time weights total 102, not 100. See Findings.

## Model

| member | source | states |
|---|---|---|
| `Reviews.HelpfulNoSplitsVotes` | Rating_Product_Sorting_Reviews_in_Amazon_ozgecinko.py:137 | for 0 ≤ helpful_yes ≤ total_vote, helpful_no lies in [0, total_vote] and helpful_yes + helpful_no = total_vote; helpful_no is 0 exactly when every vote is helpful |
| `Reviews.HelpfulNoNegativeIffMalformed` | Rating_Product_Sorting_Reviews_in_Amazon_ozgecinko.py:137 | helpful_no is negative exactly on rows where helpful_yes > total_vote |
| `Helpfulness.PosNegDiffAntisymmetric` | Rating_Product_Sorting_Reviews_in_Amazon_ozgecinko.py:145-146 | swapping up and down negates the score; the score is 0 exactly when up = down and positive exactly when up > down |
| `Helpfulness.PosNegDiffMonotone` | Rating_Product_Sorting_Reviews_in_Amazon_ozgecinko.py:145-146 | more up votes or fewer down votes never lower the score |
| `Helpfulness.AverageRatingIsShare` | Rating_Product_Sorting_Reviews_in_Amazon_ozgecinko.py:149-152 | with no votes (up + down = 0) the score is 0; otherwise the score times (up + down) is up |
| `Helpfulness.AverageRatingRange` | Rating_Product_Sorting_Reviews_in_Amazon_ozgecinko.py:149-152 | for non-negative votes the score lies in [0, 1]; it is 0 exactly when up = 0 and 1 exactly when up > 0 and down = 0 |
| `Helpfulness.AverageRatingMonotoneInUp` | Rating_Product_Sorting_Reviews_in_Amazon_ozgecinko.py:152 | with a positive vote total and fixed down votes, more up votes never lower the score |
| `Helpfulness.AverageRatingAntitoneInDown` | Rating_Product_Sorting_Reviews_in_Amazon_ozgecinko.py:152 | with a positive vote total and fixed up votes, more down votes never raise the score |
| `Helpfulness.WilsonNoVotes` | Rating_Product_Sorting_Reviews_in_Amazon_ozgecinko.py:179-181 | with no votes the Wilson bound is 0 for any confidence level |
| `Helpfulness.WilsonBetweenZeroAndShare` | Rating_Product_Sorting_Reviews_in_Amazon_ozgecinko.py:179-184 | with a non-negative quantile and an exact root, the Wilson bound lies between 0 and the plain share of up votes |
| `Helpfulness.WilsonBelowOne` | Rating_Product_Sorting_Reviews_in_Amazon_ozgecinko.py:182-184 | with votes and a positive quantile, the Wilson bound is strictly below 1, even when every vote is an up vote |
| `TimeWeighted.BucketsPartitionAges` | Rating_Product_Sorting_Reviews_in_Amazon_ozgecinko.py:79-82 | an age passes a bucket's filter exactly when that bucket is the one a threshold cascade assigns to it, so the four filters are pairwise disjoint and cover every integer age |
| `TimeWeighted.SelectMembers` | Rating_Product_Sorting_Reviews_in_Amazon_ozgecinko.py:79-82 | a review is selected for a bucket exactly when it is in the table and its age passes that bucket's filter |
| `TimeWeighted.SelectionsPartition` | Rating_Product_Sorting_Reviews_in_Amazon_ozgecinko.py:79-82 | the four bucket selections together hold every review exactly once (as multisets, and so in count) |
| `TimeWeighted.MeanOverallWithin` | Rating_Product_Sorting_Reviews_in_Amazon_ozgecinko.py:67 | the mean rating is defined exactly for a non-empty table and lies between the lowest and highest admissible rating |
| `TimeWeighted.MeanOverallConstant` | Rating_Product_Sorting_Reviews_in_Amazon_ozgecinko.py:67 | the mean of a non-empty table whose ratings all equal v is v |
| `TimeWeighted.RecentMeanWithin` | Rating_Product_Sorting_Reviews_in_Amazon_ozgecinko.py:75 | the last-30-days mean is defined exactly when some review is at most 30 days old, and then lies in the range of the ratings |
| `TimeWeighted.SumOverallSplitsByBucket` | Rating_Product_Sorting_Reviews_in_Amazon_ozgecinko.py:67-82 | the total of all ratings equals the sum of the four bucket totals |
| `TimeWeighted.SumOverallWithin` | Rating_Product_Sorting_Reviews_in_Amazon_ozgecinko.py:67 | a total of n ratings in [lo, hi] lies in [n·lo, n·hi] |
| `TimeWeighted.TimeBasedWeightedAverage` | Rating_Product_Sorting_Reviews_in_Amazon_ozgecinko.py:78-82 | the weighted average is defined (not NaN) exactly when every age bucket holds a review |
| `TimeWeighted.BucketMeansWithin` | Rating_Product_Sorting_Reviews_in_Amazon_ozgecinko.py:79-82 | every defined bucket mean lies in the range of all the ratings |
| `TimeWeighted.WeightedSumWithin` | Rating_Product_Sorting_Reviews_in_Amazon_ozgecinko.py:79-82 | four means in [lo, hi] with non-negative weights combine to a value in [lo·W/100, hi·W/100], W being the weight total |
| `TimeWeighted.TimeBasedWeightedAverageWithin` | Rating_Product_Sorting_Reviews_in_Amazon_ozgecinko.py:78-82 | with ratings in [lo, hi] and non-negative weights, a defined average lies in [lo·W/100, hi·W/100]; the weights are not assumed to total 100 |
| `TimeWeighted.TimeBasedWeightedAverageConstant` | Rating_Product_Sorting_Reviews_in_Amazon_ozgecinko.py:78-82 | if every rating is r and no bucket is empty, the average is r·(w1+w2+w3+w4)/100 |
| `TimeWeighted.DefaultWeightsInflateConstant` | Rating_Product_Sorting_Reviews_in_Amazon_ozgecinko.py:78-82 | with the default weights 30/28/22/22 a product rated r by every review scores 1.02·r |
| `TimeWeighted.FiveStarsOccupyEveryBucket` | Rating_Product_Sorting_Reviews_in_Amazon_ozgecinko.py:79-82 | the four-review example (ages 10, 60, 120, 200 days, all five stars) has a review in every bucket |
| `TimeWeighted.DefaultWeightsLeaveRatingScale` | Rating_Product_Sorting_Reviews_in_Amazon_ozgecinko.py:78-82 | as written, the default weights give that well-formed five-star product 5.1, above the 1..5 scale |
| `TimeWeighted.NormalisedWeightsArePercentages` | Rating_Product_Sorting_Reviews_in_Amazon_ozgecinko.py:78 | non-negative weights divided by their total become non-negative percentages totalling 100 |
| `TimeWeighted.NormalisedAgreesOnPercentWeights` | Rating_Product_Sorting_Reviews_in_Amazon_ozgecinko.py:78-82 | the corrected average equals the written one whenever the weights total 100 |
| `TimeWeighted.NormalisedWithin` | Rating_Product_Sorting_Reviews_in_Amazon_ozgecinko.py:78-82 | the corrected average is defined exactly when every bucket holds a review, and then lies within the range of the ratings |
| `TimeWeighted.NormalisedConstant` | Rating_Product_Sorting_Reviews_in_Amazon_ozgecinko.py:78-82 | the corrected average of a product rated r by every review is r, whatever the weights |
| `TimeWeighted.DefaultNormalisedStaysOnRatingScale` | Rating_Product_Sorting_Reviews_in_Amazon_ozgecinko.py:78-82 | with the default weights the corrected average of well-formed reviews stays on the 1..5 scale; the five-star example scores exactly 5 |
| `Composite.ScoreWithin` | Rating_Product_Sorting_Reviews_in_Amazon_ozgecinko.py:112-115 | with non-negative weights totalling 100, three inputs in [lo, hi] give a score in [lo, hi] |
| `Composite.DefaultScoreOnRatingScale` | Rating_Product_Sorting_Reviews_in_Amazon_ozgecinko.py:112-115 | the default weights 32/26/42 total 100, so inputs in [1, 5] give a score in [1, 5] |
| `Composite.ScoreMonotone` | Rating_Product_Sorting_Reviews_in_Amazon_ozgecinko.py:112-115 | with non-negative weights the score is non-decreasing in each of its three inputs |
| `Composite.DefaultScoreOfUnvotedFiveStars` | Rating_Product_Sorting_Reviews_in_Amazon_ozgecinko.py:112-115 | inputs (1, 1, 5) give 2.68 under the default weights |
| `Ranking.Insert` | Rating_Product_Sorting_Reviews_in_Amazon_ozgecinko.py:88 | inserting a row into rows in non-increasing score order keeps that order and adds exactly that row |
| `Ranking.SortDescending` | Rating_Product_Sorting_Reviews_in_Amazon_ozgecinko.py:88 | the sorted rows are a permutation of the input in non-increasing score order |
| `Ranking.LeftOutScoreLower` | Rating_Product_Sorting_Reviews_in_Amazon_ozgecinko.py:88 | in rows in non-increasing order, a prefix and the rest split the rows, and no row after the prefix scores above a row in it |
| `Ranking.TopN` | Rating_Product_Sorting_Reviews_in_Amazon_ozgecinko.py:88 | the first n rows of the sort are min(n, rows) rows drawn from the input (a sub-multiset), in non-increasing score order, none scoring below a row left out |
| `Ranking.Top20` | Rating_Product_Sorting_Reviews_in_Amazon_ozgecinko.py:92-93 | the same for the 20 rows a view shows |
| `Enrichment.Enrich` | Rating_Product_Sorting_Reviews_in_Amazon_ozgecinko.py:188-194 | the derived columns add one scored row per review, in order; the review's own columns and the supplied rescaled columns are kept unchanged |
| `Enrichment.ScoredReviewColumns` | Rating_Product_Sorting_Reviews_in_Amazon_ozgecinko.py:118-191 | for a well-formed review: helpful_no ≥ 0 and the vote counts add up to the total; the vote difference is 2·helpful_yes − total_vote; the helpful share lies in [0, 1], is 0 with no votes and otherwise is helpful_yes/total_vote; the composite score is in [1, 5] |
| `Enrichment.ScoredReviewWilson` | Rating_Product_Sorting_Reviews_in_Amazon_ozgecinko.py:194 | with a non-negative quantile and an exact root, a review's Wilson bound lies between 0 and its helpful share |
| `Enrichment.EnrichedTableColumns` | Rating_Product_Sorting_Reviews_in_Amazon_ozgecinko.py:118-191 | every row of the table of well-formed reviews keeps its review and has helpful_no ≥ 0 with helpful_yes + helpful_no = total_vote, the vote difference 2·helpful_yes − total_vote, a helpful share in [0, 1] that is 0 with no votes and otherwise helpful_yes/total_vote, and a composite score in [1, 5] |
| `Enrichment.EnrichedTableWilson` | Rating_Product_Sorting_Reviews_in_Amazon_ozgecinko.py:179-194 | with a non-negative quantile and an exact root for every row, every row's Wilson column lies between 0 and that row's helpful share |
| `Enrichment.RankBy` | Rating_Product_Sorting_Reviews_in_Amazon_ozgecinko.py:201-207 | a view by any score column (rating, votes, composite, Wilson, share, difference) has min(20, n) rows of the table, in non-increasing order of that column, none below a row left out |

## Left out

- Reading the CSV file, `head`, `info`, `describe` and the display settings (lines 58–65, 104): input and presentation only.
- The min-max rescaling of `helpful_yes` and `total_vote` to [1, 5] (lines 100–102, 106–108): it is a library call. The rescaled columns are inputs to `Enrich`. The range facts about the composite score require them to lie in [1, 5].
- The inverse normal distribution function and the square root used by the Wilson bound (lines 182, 184): library numerics. They are parameters of `WilsonLowerBound`.
- Helpfulness.WilsonBetweenZeroAndShare: assumes the supplied square root is exact at the one value the bound needs, and that the quantile is non-negative. Floating-point error is not covered.
- Helpfulness.WilsonLowerBound, Enrichment.ScoreReview, Enrichment.Enrich: assume consistent vote counts (0 ≤ helpful_yes ≤ total_vote, so both counts passed to the Wilson bound are natural numbers). The script reads the CSV (line 63) and checks none of this. A row with helpful_yes = 2 and total_vote = 1 reaches line 184 with a negative radicand, where the square root raises an error. A row with helpful_yes = 1 and total_vote = 0 has n = 0 at line 180 and gets 0 with no error. The model takes validated input as given and does not describe these rows.
- Monotonicity of the Wilson bound in up and down votes: it needs calculus over the square root and is not proved.
- Floating-point rounding: all arithmetic is exact `real` arithmetic. The script's integer 0 results (lines 151, 181) are the real 0.
- Sort ties: pandas' default sort is not stable, so the order of rows with equal scores is unspecified. The model uses one admissible order: the earlier row comes first. Every property stated of the ranked views holds for any order of ties. The one thing that depends on it is which of several equal-score rows are in the top 20.
- NaN scores in a sort key: no column the views sort by can be NaN in the model.
- Columns that take no part in scoring (reviewer name, review text, summary, review times): not modelled.

## Findings

| source | as written | input that shows it | evidently intended | confidence | as-written member | corrected member |
|---|---|---|---|---|---|---|
| Rating_Product_Sorting_Reviews_in_Amazon_ozgecinko.py:78 | default weights 30/28/22/22 total 102, while each bucket term is divided by 100 | four five-star reviews aged 10, 60, 120 and 200 days give 5.1, above the 1..5 rating scale; a product rated r everywhere gets 1.02·r | a weighted mean whose weights total 100, so that it stays within the range of the ratings; modelled by dividing by the weight total, which matches the written formula whenever the weights do total 100 | medium; not executed | `TimeWeighted.DefaultWeightsLeaveRatingScale` | `TimeWeighted.DefaultNormalisedStaysOnRatingScale` |
