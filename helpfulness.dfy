/**
 * The three helpfulness scorers of a review, each a function of its helpful
 * ("up") and not-helpful ("down") vote counts.
 */
module Helpfulness {
  import opened Arith

  // ---------------------------------------------------------------------------
  // Difference of votes
  // ---------------------------------------------------------------------------

  /** Up votes minus down votes. */
  function ScorePosNegDiff(up: int, down: int): int {
    up - down
  }

  /** Swapping the vote counts negates the score, and the score is zero
      exactly when the counts are equal. */
  lemma PosNegDiffAntisymmetric(up: int, down: int)
    ensures ScorePosNegDiff(down, up) == -ScorePosNegDiff(up, down)
    ensures ScorePosNegDiff(up, down) == 0 <==> up == down
    ensures ScorePosNegDiff(up, down) > 0 <==> up > down
  {
  }

  /** More up votes or fewer down votes never lower the score. */
  lemma PosNegDiffMonotone(up: int, up': int, down: int, down': int)
    requires up <= up' && down' <= down
    ensures ScorePosNegDiff(up, down) <= ScorePosNegDiff(up', down')
  {
  }

  // ---------------------------------------------------------------------------
  // Ratio of up votes
  // ---------------------------------------------------------------------------

  /** The share of up votes among all votes, or 0 when there are no votes. */
  function ScoreAverageRating(up: int, down: int): real {
    if up + down == 0 then 0.0 else up as real / (up + down) as real
  }

  /** With votes, the score is the fraction whose numerator is `up` and whose
      denominator is the vote total; without votes it is 0. */
  lemma AverageRatingIsShare(up: int, down: int)
    ensures up + down == 0 ==> ScoreAverageRating(up, down) == 0.0
    ensures up + down != 0 ==> ScoreAverageRating(up, down) * (up + down) as real == up as real
  {
  }

  /** For non-negative votes the score lies in [0, 1]; it is 0 exactly when
      there is no up vote and 1 exactly when there are up votes and no down vote. */
  lemma AverageRatingRange(up: int, down: int)
    requires 0 <= up && 0 <= down
    ensures 0.0 <= ScoreAverageRating(up, down) <= 1.0
    ensures ScoreAverageRating(up, down) == 0.0 <==> up == 0
    ensures ScoreAverageRating(up, down) == 1.0 <==> 0 < up && down == 0
  {
    if up + down != 0 {
      var n := (up + down) as real;
      var r := ScoreAverageRating(up, down);
      assert r * n == up as real;
      assert r == 1.0 ==> down == 0 by {
        if r == 1.0 { assert n == up as real; }
      }
    }
  }

  /** For a fixed number of down votes, more up votes never lower the score. */
  lemma AverageRatingMonotoneInUp(up: int, up': int, down: int)
    requires 0 <= up <= up' && 0 <= down && 0 < up + down
    ensures ScoreAverageRating(up, down) <= ScoreAverageRating(up', down)
  {
    var a, a', d := up as real, up' as real, down as real;
    assert a * d <= a' * d;
    CrossMultiplied(a, a + d, a', a' + d);
  }

  /** For a fixed number of up votes, more down votes never raise the score. */
  lemma AverageRatingAntitoneInDown(up: int, down: int, down': int)
    requires 0 <= up && 0 <= down <= down' && 0 < up + down
    ensures ScoreAverageRating(up, down') <= ScoreAverageRating(up, down)
  {
    var a, d, d' := up as real, down as real, down' as real;
    assert a * d <= a * d';
    CrossMultiplied(a, a + d', a, a + d);
  }

  // ---------------------------------------------------------------------------
  // Wilson lower bound
  // ---------------------------------------------------------------------------

  /** The two-sided normal quantile for a confidence level, computed by the
      supplied inverse normal distribution function `ppf`. */
  function Quantile(confidence: real, ppf: real -> real): real {
    ppf(1.0 - (1.0 - confidence) / 2.0)
  }

  /** The quantity under the square root of the Wilson bound, for the up-vote
      share `phat`, the quantile `z` and `n` votes. */
  function WilsonRadicand(phat: real, z: real, n: real): real
    requires 0.0 < n
  {
    (phat * (1.0 - phat) + z * z / (4.0 * n)) / n
  }

  /** The Wilson lower bound formula, given the square root `root` of the radicand. */
  function WilsonFormula(phat: real, z: real, n: real, root: real): real
    requires 0.0 < n
  {
    (phat + z * z / (2.0 * n) - z * root) / (1.0 + z * z / n)
  }

  /** `s` is the non-negative square root of `x`. */
  predicate IsRoot(s: real, x: real) {
    0.0 <= s && s * s == x
  }

  /** The square root that the bound for `up` and `down` votes asks `sqrt` for
      is the true one. */
  predicate RootIsExact(up: nat, down: nat, confidence: real, ppf: real -> real, sqrt: real -> real) {
    var n := (up + down) as real;
    up + down > 0 ==>
      var x := WilsonRadicand(up as real / n, Quantile(confidence, ppf), n); IsRoot(sqrt(x), x)
  }

  /** The lower end of the Wilson score interval for the up-vote share, or 0
      when there are no votes. The inverse normal distribution function and the
      square root are supplied by the caller. */
  function WilsonLowerBound(up: nat, down: nat, confidence: real, ppf: real -> real, sqrt: real -> real): real {
    var n := up + down;
    if n == 0 then 0.0
    else
      var z := Quantile(confidence, ppf);
      var nr := n as real;
      var phat := up as real / nr;
      WilsonFormula(phat, z, nr, sqrt(WilsonRadicand(phat, z, nr)))
  }

  /** Without votes the bound is 0, whatever the confidence level. */
  lemma WilsonNoVotes(confidence: real, ppf: real -> real, sqrt: real -> real)
    ensures WilsonLowerBound(0, 0, confidence, ppf, sqrt) == 0.0
  {
  }

  /** The bound is never negative and never exceeds the plain up-vote share,
      provided the quantile is non-negative and `sqrt` returns the root. */
  lemma WilsonBetweenZeroAndShare(up: nat, down: nat, confidence: real, ppf: real -> real, sqrt: real -> real)
    requires 0.0 <= Quantile(confidence, ppf)
    requires RootIsExact(up, down, confidence, ppf, sqrt)
    ensures 0.0 <= WilsonLowerBound(up, down, confidence, ppf, sqrt) <= ScoreAverageRating(up, down)
  {
    if up + down > 0 {
      var z := Quantile(confidence, ppf);
      var n := (up + down) as real;
      var p := up as real / n;
      var s := sqrt(WilsonRadicand(p, z, n));
      var m := z * z / n;
      assert ScoreAverageRating(up, down) == p;
      ShareInUnitInterval(up, down);
      WilsonTerms(p, z, n, s);
      WilsonAlgebra(p, m, z * s);
      var num := p + m / 2.0 - z * s;
      assert num <= p * (1.0 + m);
      CrossMultiplied(num, 1.0 + m, p, 1.0);
    }
  }

  /** With a positive quantile the bound stays strictly below 1, even when
      every vote is an up vote. */
  lemma WilsonBelowOne(up: nat, down: nat, confidence: real, ppf: real -> real, sqrt: real -> real)
    requires 0.0 < Quantile(confidence, ppf)
    requires up + down > 0
    requires RootIsExact(up, down, confidence, ppf, sqrt)
    ensures WilsonLowerBound(up, down, confidence, ppf, sqrt) < 1.0
  {
    var z := Quantile(confidence, ppf);
    var n := (up + down) as real;
    var p := up as real / n;
    var s := sqrt(WilsonRadicand(p, z, n));
    var m := z * z / n;
    SquareOverPositive(z, n);
    ShareInUnitInterval(up, down);
    WilsonTerms(p, z, n, s);
    ProductNonNegative(z, s);
    var num := p + m / 2.0 - z * s;
    assert num < 1.0 + m;
    var w := num / (1.0 + m);
    assert w * (1.0 + m) == num;
    if w >= 1.0 {
      assert w * (1.0 + m) >= 1.0 + m by {
        ProductNonNegative(w - 1.0, 1.0 + m);
      }
    }
  }

  /** The up-vote share of a positive vote total lies in [0, 1]. */
  lemma ShareInUnitInterval(up: nat, down: nat)
    requires up + down > 0
    ensures 0.0 <= up as real / (up + down) as real <= 1.0
  {
  }

  /** The bound formula and its squared root term, written with m = z * z / n. */
  lemma WilsonTerms(p: real, z: real, n: real, s: real)
    requires 0.0 < n
    requires IsRoot(s, WilsonRadicand(p, z, n))
    ensures var m := z * z / n;
      && 0.0 <= m
      && WilsonFormula(p, z, n, s) == (p + m / 2.0 - z * s) / (1.0 + m)
      && (z * s) * (z * s) == m * (p * (1.0 - p)) + m * m / 4.0
  {
    var a := z * z;
    var m := a / n;
    var b := p * (1.0 - p);
    var r := WilsonRadicand(p, z, n);
    assert a / (2.0 * n) == m / 2.0;
    assert a / (4.0 * n) == m / 4.0;
    assert r == (b + m / 4.0) / n;
    assert a == m * n;
    assert a * r == m * (n * r);
    assert n * r == b + m / 4.0;
    assert (z * s) * (z * s) == a * (s * s);
    SquareNonNegative(z);
    assert 0.0 <= m by {
      if m < 0.0 { ProductNonNegative(-m, n); }
    }
  }

  /** The two inequalities behind the bounds of the Wilson score, for
      t = z * sqrt(radicand) and m = z * z / n. */
  lemma WilsonAlgebra(p: real, m: real, t: real)
    requires 0.0 <= p <= 1.0 && 0.0 <= m && 0.0 <= t
    requires t * t == m * (p * (1.0 - p)) + m * m / 4.0
    ensures t <= p + m / 2.0
    ensures m * (0.5 - p) <= t
  {
    var u := p + m / 2.0;
    assert u * u == t * t + p * p + m * (p * p);
    assert p * p + m * (p * p) >= 0.0;
    NonNegativeRootOrder(t, u);
    if p < 0.5 {
      var v := m * (0.5 - p);
      var w := m * p;
      ProductNonNegative(m, p);
      ProductNonNegative(w, 1.0 - p);
      ProductNonNegative(w * (1.0 - p), 1.0 + m);
      assert t * t - v * v == w * (1.0 - p) * (1.0 + m);
      NonNegativeRootOrder(v, t);
    }
  }
}
