/**
 * `PeerReview.overall_score` of `apps/reviews/models.py`: the mean of the
 * detailed scores that are strictly positive, or 0 when none is. The mean is
 * kept exact; the rounding to one decimal is not modelled.
 */
module ReviewModels {
  import opened Strings

  /** The five detailed scores of a review; each defaults to 0. */
  datatype Scores = Scores(originality: int, methodology: int, clarity: int, significance: int, references: int)

  /** A review as created, before the reviewer scores it. */
  const DEFAULT_SCORES := Scores(0, 0, 0, 0, 0)

  function ScoreList(s: Scores): seq<int> {
    [s.originality, s.methodology, s.clarity, s.significance, s.references]
  }

  /** `[s for s in scores if s > 0]`: the strictly positive scores, each as often as it occurs, in order. */
  function Positive(xs: seq<int>): (v: seq<int>)
    ensures |v| <= |xs|
    ensures forall k :: 0 <= k < |v| ==> v[k] > 0
    ensures forall x :: x in v <==> x in xs && x > 0
    ensures forall x :: multiset(v)[x] == if x > 0 then multiset(xs)[x] else 0
    ensures Subsequence(v, xs)
  {
    if xs == [] then []
    else
      var rest := Positive(xs[1..]);
      assert xs == [xs[0]] + xs[1..];
      if xs[0] > 0 then
        assert ([xs[0]] + rest)[1..] == rest;
        [xs[0]] + rest
      else
        rest
  }

  function Sum(xs: seq<int>): int {
    if xs == [] then 0 else xs[0] + Sum(xs[1..])
  }

  /** A sum of values that are all at least lo is at least |xs| * lo. */
  lemma {:induction false} SumAtLeast(xs: seq<int>, lo: int)
    requires forall k :: 0 <= k < |xs| ==> lo <= xs[k]
    ensures |xs| * lo <= Sum(xs)
  {
    if xs != [] {
      SumAtLeast(xs[1..], lo);
      assert |xs| * lo == lo + (|xs| - 1) * lo;
    }
  }

  /** A sum of values that are all at most hi is at most |xs| * hi. */
  lemma {:induction false} SumAtMost(xs: seq<int>, hi: int)
    requires forall k :: 0 <= k < |xs| ==> xs[k] <= hi
    ensures Sum(xs) <= |xs| * hi
  {
    if xs != [] {
      SumAtMost(xs[1..], hi);
      assert |xs| * hi == hi + (|xs| - 1) * hi;
    }
  }

  /** Multiplying by a positive factor keeps a strict order. */
  lemma ScaleStrict(a: real, b: real, n: real)
    requires n > 0.0 && a < b
    ensures a * n < b * n
  {
    assert b * n - a * n == (b - a) * n;
  }

  /** Dividing out a positive factor keeps a lower bound. */
  lemma QuotientAtLeast(r: real, n: real, lo: real)
    requires n > 0.0 && lo * n <= r * n
    ensures lo <= r
  {
    if r < lo {
      ScaleStrict(r, lo, n);
    }
  }

  /** Dividing out a positive factor keeps an upper bound. */
  lemma QuotientAtMost(r: real, n: real, hi: real)
    requires n > 0.0 && r * n <= hi * n
    ensures r <= hi
  {
    if hi < r {
      ScaleStrict(hi, r, n);
    }
  }

  /** Casting a product of integers to a real is the product of the casts. */
  lemma CastProduct(a: int, b: int)
    ensures (a * b) as real == (a as real) * (b as real)
  {
  }

  /** Dividing by a non-zero real and multiplying back gives the original value. */
  lemma DivMul(total: real, n: real)
    requires n != 0.0
    ensures (total / n) * n == total
  {
  }

  /** The mean of a non-empty list: its sum over its count. */
  function Mean(xs: seq<int>): (m: real)
    requires xs != []
    ensures m * (|xs| as real) == Sum(xs) as real
  {
    DivMul(Sum(xs) as real, |xs| as real);
    Sum(xs) as real / |xs| as real
  }

  /** The mean is at least any lower bound of the elements. */
  lemma MeanAtLeast(xs: seq<int>, lo: int)
    requires xs != []
    requires forall k :: 0 <= k < |xs| ==> lo <= xs[k]
    ensures lo as real <= Mean(xs)
  {
    SumAtLeast(xs, lo);
    CastProduct(|xs|, lo);
    QuotientAtLeast(Mean(xs), |xs| as real, lo as real);
  }

  /** The mean is at most any upper bound of the elements. */
  lemma MeanAtMost(xs: seq<int>, hi: int)
    requires xs != []
    requires forall k :: 0 <= k < |xs| ==> xs[k] <= hi
    ensures Mean(xs) <= hi as real
  {
    SumAtMost(xs, hi);
    CastProduct(|xs|, hi);
    QuotientAtMost(Mean(xs), |xs| as real, hi as real);
  }

  /**
   * `overall_score`: 0 when no score is positive, otherwise the mean of the
   * positive scores (their sum over their count), which is then itself
   * positive.
   */
  function OverallScore(s: Scores): (r: real)
    ensures Positive(ScoreList(s)) == [] ==> r == 0.0
    ensures Positive(ScoreList(s)) != [] ==> r * (|Positive(ScoreList(s))| as real) == Sum(Positive(ScoreList(s))) as real
    ensures Positive(ScoreList(s)) != [] ==> r > 0.0
  {
    var valid := Positive(ScoreList(s));
    if valid == [] then 0.0
    else
      MeanAtLeast(valid, 1);
      Mean(valid)
  }

  /**
   * The score lies within any bounds that hold for every positive score; in
   * particular it lies between the smallest and the largest of them.
   */
  lemma OverallScoreBetween(s: Scores, lo: int, hi: int)
    requires Positive(ScoreList(s)) != []
    requires forall x :: x in Positive(ScoreList(s)) ==> lo <= x <= hi
    ensures lo as real <= OverallScore(s) <= hi as real
  {
    var valid := Positive(ScoreList(s));
    forall k | 0 <= k < |valid|
      ensures lo <= valid[k] <= hi
    {
      assert valid[k] in valid;
    }
    MeanAtLeast(valid, lo);
    MeanAtMost(valid, hi);
  }

  /** Only the positive scores matter: changing scores that are not positive to others that are not changes nothing. */
  lemma OnlyPositiveScoresCount(s: Scores, t: Scores)
    requires forall k :: 0 <= k < 5 ==> ScoreList(s)[k] == ScoreList(t)[k] || (ScoreList(s)[k] <= 0 && ScoreList(t)[k] <= 0)
    ensures OverallScore(s) == OverallScore(t)
  {
    SamePositive(ScoreList(s), ScoreList(t));
  }

  lemma {:induction false} SamePositive(xs: seq<int>, ys: seq<int>)
    requires |xs| == |ys|
    requires forall k :: 0 <= k < |xs| ==> xs[k] == ys[k] || (xs[k] <= 0 && ys[k] <= 0)
    ensures Positive(xs) == Positive(ys)
  {
    if xs != [] {
      SamePositive(xs[1..], ys[1..]);
    }
  }

  /** A review whose scores are all still at their default has score 0. */
  lemma DefaultScoresGiveZero()
    ensures OverallScore(DEFAULT_SCORES) == 0.0
  {
    assert Positive(ScoreList(DEFAULT_SCORES)) == [];
  }
}
