/**
 * Ranking rows by a score: a descending sort followed by taking the first
 * rows, as a product page shows its top reviews.
 */
module Ranking {

  /** The rows appear in non-increasing order of `key`. */
  predicate NonIncreasing<T>(s: seq<T>, key: T -> real) {
    forall i, j :: 0 <= i < j < |s| ==> key(s[i]) >= key(s[j])
  }

  /** Puts `x` into a sequence already in non-increasing order of `key`,
      ahead of every row whose score does not exceed its own. */
  function Insert<T>(x: T, s: seq<T>, key: T -> real): (r: seq<T>)
    requires NonIncreasing(s, key)
    ensures NonIncreasing(r, key)
    ensures multiset(r) == multiset(s) + multiset{x}
    ensures |r| == |s| + 1
  {
    if s == [] then [x]
    else if key(s[0]) <= key(x) then [x] + s
    else
      var rest := Insert(x, s[1..], key);
      assert s == [s[0]] + s[1..];
      PrependHigher(s[0], s[1..], x, rest, key);
      [s[0]] + rest
  }

  /** A row that scores at least as much as `x` and every row of `t` may be
      put in front of any ordering of `t` and `x`. */
  lemma PrependHigher<T>(h: T, t: seq<T>, x: T, rest: seq<T>, key: T -> real)
    requires NonIncreasing([h] + t, key) && key(x) < key(h)
    requires NonIncreasing(rest, key) && multiset(rest) == multiset(t) + multiset{x}
    ensures NonIncreasing([h] + rest, key)
  {
    forall k | 0 <= k < |rest| ensures key(rest[k]) <= key(h) {
      assert rest[k] in multiset(rest);
      if rest[k] != x {
        assert rest[k] in multiset(t);
        var i :| 0 <= i < |t| && t[i] == rest[k];
        var ht := [h] + t;
        assert ht[0] == h && ht[i + 1] == rest[k];
        assert key(ht[0]) >= key(ht[i + 1]);
      }
    }
    var r := [h] + rest;
    forall i, j | 0 <= i < j < |r| ensures key(r[i]) >= key(r[j]) {
      if i > 0 { assert r[i] == rest[i - 1] && r[j] == rest[j - 1]; }
      else { assert r[j] == rest[j - 1]; }
    }
  }

  /** The rows of `s` sorted by `key`, highest score first. */
  function SortDescending<T>(s: seq<T>, key: T -> real): (r: seq<T>)
    ensures NonIncreasing(r, key)
    ensures multiset(r) == multiset(s)
    ensures |r| == |s|
  {
    if s == [] then []
    else
      assert s == [s[0]] + s[1..];
      Insert(s[0], SortDescending(s[1..], key), key)
  }

  /** The first `n` rows, or all of them when there are fewer. */
  function Head<T>(s: seq<T>, n: nat): seq<T> {
    s[..if n < |s| then n else |s|]
  }

  /** The `n` highest-scoring rows: min(n, |s|) rows of the input in
      non-increasing order of score, none scoring below a row left out. */
  function TopN<T>(s: seq<T>, key: T -> real, n: nat): (top: seq<T>)
    ensures |top| == if n < |s| then n else |s|
    ensures NonIncreasing(top, key)
    ensures multiset(top) <= multiset(s)
    ensures forall x, y :: x in top && y in multiset(s) - multiset(top) ==> key(y) <= key(x)
  {
    var sorted := SortDescending(s, key);
    var top := Head(sorted, n);
    LeftOutScoreLower(sorted, key, |top|);
    top
  }

  /** In a non-increasing sequence, every row of a prefix scores at least as
      much as every row after it, and prefix and remainder split the rows. */
  lemma LeftOutScoreLower<T>(s: seq<T>, key: T -> real, m: nat)
    requires m <= |s| && NonIncreasing(s, key)
    ensures multiset(s[..m]) <= multiset(s)
    ensures multiset(s) - multiset(s[..m]) == multiset(s[m..])
    ensures forall x, y :: x in s[..m] && y in multiset(s) - multiset(s[..m]) ==> key(y) <= key(x)
  {
    assert s == s[..m] + s[m..];
    assert multiset(s) == multiset(s[..m]) + multiset(s[m..]);
    forall x, y | x in s[..m] && y in multiset(s[m..])
      ensures key(y) <= key(x)
    {
      var i :| 0 <= i < m && s[i] == x;
      var j :| 0 <= j < |s| - m && s[m..][j] == y;
      assert s[m + j] == y;
    }
  }

  /** The number of rows a ranked view shows. */
  const DisplayCount: nat := 20

  /** The twenty highest-scoring rows. */
  function Top20<T>(s: seq<T>, key: T -> real): (top: seq<T>)
    ensures |top| == if |s| < DisplayCount then |s| else DisplayCount
    ensures NonIncreasing(top, key)
    ensures multiset(top) <= multiset(s)
    ensures forall x, y :: x in top && y in multiset(s) - multiset(top) ==> key(y) <= key(x)
  {
    TopN(s, key, DisplayCount)
  }
}
