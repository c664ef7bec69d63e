/**
 * The product's average rating: the plain mean, the mean of the last 30 days,
 * and the time-based weighted average over four review-age buckets.
 *
 * An empty selection has no mean (pandas yields NaN); that undefined value is
 * `None` here, and it propagates through the weighted sum.
 */
module TimeWeighted {
  import opened Wrappers
  import opened Arith
  import opened Reviews

  /** The four review-age buckets, most recent first. */
  datatype AgeBucket = UpTo30Days | UpTo90Days | UpTo180Days | Over180Days

  /** The row filter applied for each bucket on the `day_diff` column. */
  predicate InBucket(b: AgeBucket, dayDiff: int) {
    match b
    case UpTo30Days => dayDiff <= 30
    case UpTo90Days => 30 < dayDiff && dayDiff <= 90
    case UpTo180Days => 90 < dayDiff && dayDiff <= 180
    case Over180Days => 180 < dayDiff
  }

  /** An independent classification of a review age by successive thresholds. */
  function BucketOf(dayDiff: int): AgeBucket {
    if dayDiff <= 30 then UpTo30Days
    else if dayDiff <= 90 then UpTo90Days
    else if dayDiff <= 180 then UpTo180Days
    else Over180Days
  }

  /** The four filters are pairwise disjoint and together cover every age:
      each age passes exactly the filter of its own bucket. */
  lemma BucketsPartitionAges(dayDiff: int, b: AgeBucket)
    ensures InBucket(b, dayDiff) <==> b == BucketOf(dayDiff)
  {
  }

  /** The reviews of `rs` whose age falls in bucket `b`, in their original order. */
  function Select(rs: seq<Review>, b: AgeBucket): seq<Review> {
    if rs == [] then []
    else if InBucket(b, rs[0].dayDiff) then [rs[0]] + Select(rs[1..], b)
    else Select(rs[1..], b)
  }

  /** A review is selected for a bucket exactly when it is one of the reviews
      and its age falls in that bucket. */
  lemma {:induction false} SelectMembers(rs: seq<Review>, b: AgeBucket, r: Review)
    ensures r in Select(rs, b) <==> r in rs && InBucket(b, r.dayDiff)
  {
    if rs != [] {
      SelectMembers(rs[1..], b, r);
      assert rs == [rs[0]] + rs[1..];
    }
  }

  /** Every age bucket holds at least one of the reviews. */
  predicate EveryBucketOccupied(rs: seq<Review>) {
    && Select(rs, UpTo30Days) != []
    && Select(rs, UpTo90Days) != []
    && Select(rs, UpTo180Days) != []
    && Select(rs, Over180Days) != []
  }

  /** The four bucket selections split the reviews: every review lands in
      exactly one of them. */
  lemma {:induction false} SelectionsPartition(rs: seq<Review>)
    ensures multiset(Select(rs, UpTo30Days)) + multiset(Select(rs, UpTo90Days))
          + multiset(Select(rs, UpTo180Days)) + multiset(Select(rs, Over180Days))
         == multiset(rs)
    ensures |Select(rs, UpTo30Days)| + |Select(rs, UpTo90Days)|
          + |Select(rs, UpTo180Days)| + |Select(rs, Over180Days)| == |rs|
  {
    if rs != [] {
      var r, t := rs[0], rs[1..];
      SelectionsPartition(t);
      assert rs == [r] + t;
      var s1, s2, s3, s4 := Select(t, UpTo30Days), Select(t, UpTo90Days), Select(t, UpTo180Days), Select(t, Over180Days);
      match BucketOf(r.dayDiff)
      case UpTo30Days =>
        assert Select(rs, UpTo30Days) == [r] + s1;
        assert Select(rs, UpTo90Days) == s2 && Select(rs, UpTo180Days) == s3 && Select(rs, Over180Days) == s4;
      case UpTo90Days =>
        assert Select(rs, UpTo90Days) == [r] + s2;
        assert Select(rs, UpTo30Days) == s1 && Select(rs, UpTo180Days) == s3 && Select(rs, Over180Days) == s4;
      case UpTo180Days =>
        assert Select(rs, UpTo180Days) == [r] + s3;
        assert Select(rs, UpTo30Days) == s1 && Select(rs, UpTo90Days) == s2 && Select(rs, Over180Days) == s4;
      case Over180Days =>
        assert Select(rs, Over180Days) == [r] + s4;
        assert Select(rs, UpTo30Days) == s1 && Select(rs, UpTo90Days) == s2 && Select(rs, UpTo180Days) == s3;
    }
  }

  // ---------------------------------------------------------------------------
  // Means
  // ---------------------------------------------------------------------------

  /** The sum of the `overall` column. */
  function SumOverall(rs: seq<Review>): real {
    if rs == [] then 0.0 else rs[0].overall + SumOverall(rs[1..])
  }

  /** The mean of the `overall` column, undefined for no rows. */
  function MeanOverall(rs: seq<Review>): Option<real> {
    if |rs| == 0 then None else Some(SumOverall(rs) / |rs| as real)
  }

  /** The mean rating of the reviews in one age bucket. */
  function BucketMean(rs: seq<Review>, b: AgeBucket): Option<real> {
    MeanOverall(Select(rs, b))
  }

  /** The mean rating of the reviews of the last 30 days. */
  function RecentMeanOverall(rs: seq<Review>): Option<real> {
    BucketMean(rs, UpTo30Days)
  }

  /** Every rating in `rs` lies in [lo, hi]. */
  predicate RatingsWithin(rs: seq<Review>, lo: real, hi: real) {
    forall r :: r in rs ==> lo <= r.overall <= hi
  }

  /** Every rating in `rs` equals `v`. */
  predicate RatingsAll(rs: seq<Review>, v: real) {
    forall r :: r in rs ==> r.overall == v
  }

  /** Selecting a bucket keeps the ratings' range and their common value. */
  lemma SelectKeepsRatings(rs: seq<Review>, b: AgeBucket, lo: real, hi: real, v: real)
    ensures RatingsWithin(rs, lo, hi) ==> RatingsWithin(Select(rs, b), lo, hi)
    ensures RatingsAll(rs, v) ==> RatingsAll(Select(rs, b), v)
  {
  }

  /** A sum of ratings in [lo, hi] lies between |rs| * lo and |rs| * hi. */
  lemma {:induction false} SumOverallWithin(rs: seq<Review>, lo: real, hi: real)
    requires RatingsWithin(rs, lo, hi)
    ensures |rs| as real * lo <= SumOverall(rs) <= |rs| as real * hi
  {
    if rs != [] {
      SumOverallWithin(rs[1..], lo, hi);
      assert rs[0] in rs;
      assert |rs| as real * lo == |rs[1..]| as real * lo + lo;
      assert |rs| as real * hi == |rs[1..]| as real * hi + hi;
    }
  }

  /** A sum of equal ratings is their count times the rating. */
  lemma {:induction false} SumOverallConstant(rs: seq<Review>, v: real)
    requires RatingsAll(rs, v)
    ensures SumOverall(rs) == |rs| as real * v
  {
    if rs != [] {
      SumOverallConstant(rs[1..], v);
      assert rs[0] in rs;
    }
  }

  /** The mean is defined exactly for a non-empty selection, and then lies
      between the smallest and the largest admissible rating. */
  lemma MeanOverallWithin(rs: seq<Review>, lo: real, hi: real)
    requires RatingsWithin(rs, lo, hi)
    ensures MeanOverall(rs).Some? <==> rs != []
    ensures MeanOverall(rs).Some? ==> lo <= MeanOverall(rs).value <= hi
  {
    if rs != [] {
      var n := |rs| as real;
      SumOverallWithin(rs, lo, hi);
      CrossMultiplied(lo, 1.0, SumOverall(rs), n);
      CrossMultiplied(SumOverall(rs), n, hi, 1.0);
    }
  }

  /** The mean of equal ratings is that rating. */
  lemma MeanOverallConstant(rs: seq<Review>, v: real)
    requires rs != [] && RatingsAll(rs, v)
    ensures MeanOverall(rs) == Some(v)
  {
    var n := |rs| as real;
    SumOverallConstant(rs, v);
    CancelFactor(v, n);
    assert SumOverall(rs) == n * v;
    assert SumOverall(rs) / n == v;
    assert MeanOverall(rs) == Some(SumOverall(rs) / n);
  }

  /** The mean of the last 30 days is defined exactly when some review is at
      most 30 days old, and then lies in the range of all the ratings. */
  lemma RecentMeanWithin(rs: seq<Review>, lo: real, hi: real)
    requires RatingsWithin(rs, lo, hi)
    ensures RecentMeanOverall(rs).Some? <==> exists r :: r in rs && r.dayDiff <= 30
    ensures RecentMeanOverall(rs).Some? ==> lo <= RecentMeanOverall(rs).value <= hi
  {
    var recent := Select(rs, UpTo30Days);
    SelectKeepsRatings(rs, UpTo30Days, lo, hi, lo);
    MeanOverallWithin(recent, lo, hi);
    if recent != [] {
      SelectMembers(rs, UpTo30Days, recent[0]);
    }
    forall r | r in rs && r.dayDiff <= 30 ensures recent != [] {
      SelectMembers(rs, UpTo30Days, r);
    }
  }

  /** The total of all ratings is the total of the four bucket totals. */
  lemma {:induction false} SumOverallSplitsByBucket(rs: seq<Review>)
    ensures SumOverall(rs)
         == SumOverall(Select(rs, UpTo30Days)) + SumOverall(Select(rs, UpTo90Days))
          + SumOverall(Select(rs, UpTo180Days)) + SumOverall(Select(rs, Over180Days))
  {
    if rs != [] {
      SumOverallSplitsByBucket(rs[1..]);
      BucketsPartitionAges(rs[0].dayDiff, UpTo30Days);
      BucketsPartitionAges(rs[0].dayDiff, UpTo90Days);
      BucketsPartitionAges(rs[0].dayDiff, UpTo180Days);
      BucketsPartitionAges(rs[0].dayDiff, Over180Days);
    }
  }

  // ---------------------------------------------------------------------------
  // Time-based weighted average
  // ---------------------------------------------------------------------------

  /** The default bucket weights, in percent. */
  const W1: real := 30.0
  const W2: real := 28.0
  const W3: real := 22.0
  const W4: real := 22.0

  /** Four bucket means combined with percentage weights. */
  function WeightedSum(m1: real, m2: real, m3: real, m4: real, w1: real, w2: real, w3: real, w4: real): real {
    m1 * w1 / 100.0 + m2 * w2 / 100.0 + m3 * w3 / 100.0 + m4 * w4 / 100.0
  }

  /** The time-based weighted average: each bucket's mean rating times its
      weight over 100, summed; undefined as soon as one bucket is empty. */
  function TimeBasedWeightedAverage(rs: seq<Review>, w1: real, w2: real, w3: real, w4: real): (avg: Option<real>)
    ensures avg.Some? <==> EveryBucketOccupied(rs)
  {
    var m1, m2 := BucketMean(rs, UpTo30Days), BucketMean(rs, UpTo90Days);
    var m3, m4 := BucketMean(rs, UpTo180Days), BucketMean(rs, Over180Days);
    if m1.Some? && m2.Some? && m3.Some? && m4.Some? then
      Some(WeightedSum(m1.value, m2.value, m3.value, m4.value, w1, w2, w3, w4))
    else
      None
  }

  /** The time-based weighted average with the default weights 30/28/22/22. */
  function DefaultTimeBasedWeightedAverage(rs: seq<Review>): Option<real> {
    TimeBasedWeightedAverage(rs, W1, W2, W3, W4)
  }

  /** The weighted sum of means in [lo, hi] with non-negative weights lies
      between lo and hi times the weight total over 100. */
  lemma WeightedSumWithin(m1: real, m2: real, m3: real, m4: real, w1: real, w2: real, w3: real, w4: real, lo: real, hi: real)
    requires lo <= m1 <= hi && lo <= m2 <= hi && lo <= m3 <= hi && lo <= m4 <= hi
    requires 0.0 <= w1 && 0.0 <= w2 && 0.0 <= w3 && 0.0 <= w4
    ensures lo * (w1 + w2 + w3 + w4) / 100.0 <= WeightedSum(m1, m2, m3, m4, w1, w2, w3, w4) <= hi * (w1 + w2 + w3 + w4) / 100.0
  {
    ProductNonNegative(m1 - lo, w1); ProductNonNegative(hi - m1, w1);
    ProductNonNegative(m2 - lo, w2); ProductNonNegative(hi - m2, w2);
    ProductNonNegative(m3 - lo, w3); ProductNonNegative(hi - m3, w3);
    ProductNonNegative(m4 - lo, w4); ProductNonNegative(hi - m4, w4);
  }

  /** With ratings in [lo, hi] and non-negative weights, a defined average lies
      between lo and hi times the weight total over 100. */
  lemma TimeBasedWeightedAverageWithin(rs: seq<Review>, w1: real, w2: real, w3: real, w4: real, lo: real, hi: real)
    requires RatingsWithin(rs, lo, hi)
    requires 0.0 <= w1 && 0.0 <= w2 && 0.0 <= w3 && 0.0 <= w4
    ensures var avg := TimeBasedWeightedAverage(rs, w1, w2, w3, w4);
      avg.Some? ==> lo * (w1 + w2 + w3 + w4) / 100.0 <= avg.value <= hi * (w1 + w2 + w3 + w4) / 100.0
  {
    var avg := TimeBasedWeightedAverage(rs, w1, w2, w3, w4);
    if avg.Some? {
      BucketMeansWithin(rs, lo, hi);
      WeightedSumWithin(BucketMean(rs, UpTo30Days).value, BucketMean(rs, UpTo90Days).value,
        BucketMean(rs, UpTo180Days).value, BucketMean(rs, Over180Days).value, w1, w2, w3, w4, lo, hi);
    }
  }

  /** Every defined bucket mean lies in the rating range of all reviews. */
  lemma BucketMeansWithin(rs: seq<Review>, lo: real, hi: real)
    requires RatingsWithin(rs, lo, hi)
    ensures forall b: AgeBucket :: BucketMean(rs, b).Some? ==> lo <= BucketMean(rs, b).value <= hi
  {
    forall b: AgeBucket
      ensures BucketMean(rs, b).Some? ==> lo <= BucketMean(rs, b).value <= hi
    {
      SelectKeepsRatings(rs, b, lo, hi, lo);
      MeanOverallWithin(Select(rs, b), lo, hi);
    }
  }

  /** When every review has rating v and no bucket is empty, the average is
      v times the weight total over 100. */
  lemma TimeBasedWeightedAverageConstant(rs: seq<Review>, w1: real, w2: real, w3: real, w4: real, v: real)
    requires RatingsAll(rs, v)
    requires EveryBucketOccupied(rs)
    ensures TimeBasedWeightedAverage(rs, w1, w2, w3, w4) == Some(v * (w1 + w2 + w3 + w4) / 100.0)
  {
    forall b: AgeBucket ensures BucketMean(rs, b) == Some(v) {
      SelectKeepsRatings(rs, b, v, v, v);
      MeanOverallConstant(Select(rs, b), v);
    }
    assert WeightedSum(v, v, v, v, w1, w2, w3, w4) == v * (w1 + w2 + w3 + w4) / 100.0;
  }

  /** With the default weights, which total 102, a product whose every review
      has rating v scores 1.02 * v rather than v. */
  lemma DefaultWeightsInflateConstant(rs: seq<Review>, v: real)
    requires RatingsAll(rs, v)
    requires EveryBucketOccupied(rs)
    ensures DefaultTimeBasedWeightedAverage(rs) == Some(1.02 * v)
  {
    TimeBasedWeightedAverageConstant(rs, W1, W2, W3, W4, v);
  }

  /** Four five-star reviews, one per age bucket. */
  function FiveStarsInEveryBucket(): seq<Review> {
    [ Review("a", "p", 5.0, 0, 0, 10),
      Review("b", "p", 5.0, 0, 0, 60),
      Review("c", "p", 5.0, 0, 0, 120),
      Review("d", "p", 5.0, 0, 0, 200) ]
  }

  /** The example product has a review in each bucket. */
  lemma FiveStarsOccupyEveryBucket()
    ensures EveryBucketOccupied(FiveStarsInEveryBucket())
    ensures RatingsAll(FiveStarsInEveryBucket(), 5.0)
  {
  }

  /** The default weights push a product of well-formed five-star reviews to
      5.1, above the top of the 1..5 rating scale. */
  lemma DefaultWeightsLeaveRatingScale()
    ensures forall r :: r in FiveStarsInEveryBucket() ==> WellFormed(r)
    ensures DefaultTimeBasedWeightedAverage(FiveStarsInEveryBucket()) == Some(5.1)
  {
    var rs := FiveStarsInEveryBucket();
    FiveStarsOccupyEveryBucket();
    DefaultWeightsInflateConstant(rs, 5.0);
  }

  // ---------------------------------------------------------------------------
  // Corrected average: weights normalised by their total
  // ---------------------------------------------------------------------------

  /** The time-based weighted average with the weights divided by their own
      total instead of by 100, so that they always add up to one. */
  function NormalisedTimeBasedWeightedAverage(rs: seq<Review>, w1: real, w2: real, w3: real, w4: real): Option<real>
    requires 0.0 <= w1 && 0.0 <= w2 && 0.0 <= w3 && 0.0 <= w4
    requires 0.0 < w1 + w2 + w3 + w4
  {
    var total := w1 + w2 + w3 + w4;
    TimeBasedWeightedAverage(rs, 100.0 * w1 / total, 100.0 * w2 / total, 100.0 * w3 / total, 100.0 * w4 / total)
  }

  /** The normalised average with the default weights. */
  function DefaultNormalisedTimeBasedWeightedAverage(rs: seq<Review>): Option<real> {
    NormalisedTimeBasedWeightedAverage(rs, W1, W2, W3, W4)
  }

  /** Weights that already total 100 are left as they are. */
  lemma NormalisedAgreesOnPercentWeights(rs: seq<Review>, w1: real, w2: real, w3: real, w4: real)
    requires 0.0 <= w1 && 0.0 <= w2 && 0.0 <= w3 && 0.0 <= w4
    requires w1 + w2 + w3 + w4 == 100.0
    ensures NormalisedTimeBasedWeightedAverage(rs, w1, w2, w3, w4) == TimeBasedWeightedAverage(rs, w1, w2, w3, w4)
  {
    var total := w1 + w2 + w3 + w4;
    assert 100.0 * w1 / total == w1 && 100.0 * w2 / total == w2;
    assert 100.0 * w3 / total == w3 && 100.0 * w4 / total == w4;
  }

  /** The normalised average is defined exactly when every bucket has a review,
      and then stays within the range of the ratings. */
  lemma NormalisedWithin(rs: seq<Review>, w1: real, w2: real, w3: real, w4: real, lo: real, hi: real)
    requires 0.0 <= w1 && 0.0 <= w2 && 0.0 <= w3 && 0.0 <= w4
    requires 0.0 < w1 + w2 + w3 + w4
    requires RatingsWithin(rs, lo, hi)
    ensures var avg := NormalisedTimeBasedWeightedAverage(rs, w1, w2, w3, w4);
      && (avg.Some? <==> EveryBucketOccupied(rs))
      && (avg.Some? ==> lo <= avg.value <= hi)
  {
    var total := w1 + w2 + w3 + w4;
    var v1, v2, v3, v4 := 100.0 * w1 / total, 100.0 * w2 / total, 100.0 * w3 / total, 100.0 * w4 / total;
    NormalisedWeightsArePercentages(w1, w2, w3, w4);
    TimeBasedWeightedAverageWithin(rs, v1, v2, v3, v4, lo, hi);
    var avg := TimeBasedWeightedAverage(rs, v1, v2, v3, v4);
    assert NormalisedTimeBasedWeightedAverage(rs, w1, w2, w3, w4) == avg;
    assert v1 + v2 + v3 + v4 == 100.0;
    assert lo * (v1 + v2 + v3 + v4) / 100.0 == lo && hi * (v1 + v2 + v3 + v4) / 100.0 == hi;
  }

  /** Scaled by their total, non-negative weights become non-negative
      percentages that add up to 100. */
  lemma NormalisedWeightsArePercentages(w1: real, w2: real, w3: real, w4: real)
    requires 0.0 <= w1 && 0.0 <= w2 && 0.0 <= w3 && 0.0 <= w4
    requires 0.0 < w1 + w2 + w3 + w4
    ensures var total := w1 + w2 + w3 + w4;
      && 0.0 <= 100.0 * w1 / total && 0.0 <= 100.0 * w2 / total
      && 0.0 <= 100.0 * w3 / total && 0.0 <= 100.0 * w4 / total
      && 100.0 * w1 / total + 100.0 * w2 / total + 100.0 * w3 / total + 100.0 * w4 / total == 100.0
  {
    var total := w1 + w2 + w3 + w4;
    CrossMultiplied(0.0, 1.0, 100.0 * w1, total);
    CrossMultiplied(0.0, 1.0, 100.0 * w2, total);
    CrossMultiplied(0.0, 1.0, 100.0 * w3, total);
    CrossMultiplied(0.0, 1.0, 100.0 * w4, total);
    assert 100.0 * w1 / total + 100.0 * w2 / total + 100.0 * w3 / total + 100.0 * w4 / total
        == 100.0 * total / total;
  }

  /** A product whose every review has rating v gets exactly v, whatever the weights. */
  lemma NormalisedConstant(rs: seq<Review>, w1: real, w2: real, w3: real, w4: real, v: real)
    requires 0.0 <= w1 && 0.0 <= w2 && 0.0 <= w3 && 0.0 <= w4
    requires 0.0 < w1 + w2 + w3 + w4
    requires RatingsAll(rs, v)
    requires EveryBucketOccupied(rs)
    ensures NormalisedTimeBasedWeightedAverage(rs, w1, w2, w3, w4) == Some(v)
  {
    var total := w1 + w2 + w3 + w4;
    NormalisedWeightsArePercentages(w1, w2, w3, w4);
    var v1, v2, v3, v4 := 100.0 * w1 / total, 100.0 * w2 / total, 100.0 * w3 / total, 100.0 * w4 / total;
    assert NormalisedTimeBasedWeightedAverage(rs, w1, w2, w3, w4) == TimeBasedWeightedAverage(rs, v1, v2, v3, v4);
    TimeBasedWeightedAverageConstant(rs, v1, v2, v3, v4, v);
    var x := v * (v1 + v2 + v3 + v4) / 100.0;
    assert TimeBasedWeightedAverage(rs, v1, v2, v3, v4) == Some(x);
    assert x == v;
  }

  /** With the default weights, the normalised average of well-formed reviews
      stays on the 1..5 rating scale; the five-star product scores 5. */
  lemma DefaultNormalisedStaysOnRatingScale(rs: seq<Review>)
    requires forall r :: r in rs ==> WellFormed(r)
    ensures var avg := DefaultNormalisedTimeBasedWeightedAverage(rs);
      avg.Some? ==> 1.0 <= avg.value <= 5.0
    ensures DefaultNormalisedTimeBasedWeightedAverage(FiveStarsInEveryBucket()) == Some(5.0)
  {
    NormalisedWithin(rs, W1, W2, W3, W4, 1.0, 5.0);
    FiveStarsOccupyEveryBucket();
    NormalisedConstant(FiveStarsInEveryBucket(), W1, W2, W3, W4, 5.0);
  }
}
