/**
 * Scoring and ranking of the recommendation service (ml/server.py): `_cosine_scores` and
 * the ordering `np.lexsort((-pop, -scores))` truncated to `max(1, limit or 50)` entries.
 *
 * A cosine `dot / (|u| * |row|)` is kept exact as `Cosine(dot, norms2)` with `norms2` the
 * product of the squared norms, so no square root is taken; two cosines compare like their
 * keys `dot * |dot| / norms2`.
 */
module Ranker {
  import opened Results
  import opened Vectorizer

  type Positive = x: real | x > 0.0 witness 1.0

  /** The cosine `dot / sqrt(norms2)`. */
  datatype Cosine = Cosine(dot: real, norms2: Positive)

  /** The norm a zero norm product is replaced with. */
  const Epsilon: real := 0.00000001

  function Abs(x: real): real {
    if x < 0.0 then -x else x
  }

  /** A key that orders cosines like their values: the signed square of the cosine. */
  function Key(c: Cosine): real {
    c.dot * Abs(c.dot) / c.norms2
  }

  function Dot(a: seq<real>, b: seq<real>): real
    requires |a| == |b|
  {
    if a == [] then 0.0 else a[0] * b[0] + Dot(a[1..], b[1..])
  }

  /** The squared Euclidean norm. */
  function SumSq(a: seq<real>): real {
    Dot(a, a)
  }

  /** The cosine of `row` and a non-zero `u`; a zero norm product counts as `Epsilon` squared. */
  function CosineOf(row: seq<real>, u: seq<real>): Cosine
    requires |row| == |u|
  {
    SumSqNonNegative(row);
    SumSqNonNegative(u);
    var n := SumSq(row) * SumSq(u);
    Cosine(Dot(row, u), if n == 0.0 then Epsilon * Epsilon else n)
  }

  /** `_cosine_scores(u, M)`. */
  function CosineScores(u: seq<real>, M: seq<seq<real>>): (s: seq<Cosine>)
    requires forall i :: 0 <= i < |M| ==> |M[i]| == |u|
    ensures |s| == if |M| == 0 || |u| == 0 then 0 else |M|
  {
    if |M| == 0 || |u| == 0 then []
    else if SumSq(u) == 0.0 then seq(|M|, i requires 0 <= i < |M| => Cosine(0.0, 1.0))
    else seq(|M|, i requires 0 <= i < |M| => CosineOf(M[i], u))
  }

  lemma {:induction false} SumSqNonNegative(a: seq<real>)
    ensures SumSq(a) >= 0.0
  {
    if a != [] {
      SumSqNonNegative(a[1..]);
    }
  }

  /** A vector of squared norm 0 is zero, so its dot with anything is 0. */
  lemma {:induction false} ZeroNormDot(a: seq<real>, b: seq<real>)
    requires |a| == |b| && SumSq(a) == 0.0
    ensures Dot(a, b) == 0.0
  {
    if a != [] {
      SumSqNonNegative(a[1..]);
      if a[0] > 0.0 {
        assert a[0] * a[0] > 0.0;
      } else if a[0] < 0.0 {
        assert a[0] * a[0] > 0.0;
      }
      assert a[0] * a[0] == 0.0;
      ZeroNormDot(a[1..], b[1..]);
    }
  }

  /** For 0/1 vectors the dot product counts shared ones, so it is at most either count. */
  lemma {:induction false} OneHotDot(a: seq<real>, b: seq<real>)
    requires |a| == |b| && OneHot(a) && OneHot(b)
    ensures 0.0 <= Dot(a, b) <= SumSq(a) && Dot(a, b) <= SumSq(b)
  {
    if a != [] {
      OneHotDot(a[1..], b[1..]);
    }
  }

  /** A zero query vector scores every row 0. */
  lemma ZeroQueryScoresZero(u: seq<real>, M: seq<seq<real>>, i: nat)
    requires forall r :: 0 <= r < |M| ==> |M[r]| == |u|
    requires SumSq(u) == 0.0 && i < |CosineScores(u, M)|
    ensures Key(CosineScores(u, M)[i]) == 0.0
  {
  }

  /** A zero row scores 0, whatever the query. */
  lemma ZeroRowScoresZero(u: seq<real>, M: seq<seq<real>>, i: nat)
    requires forall r :: 0 <= r < |M| ==> |M[r]| == |u|
    requires i < |CosineScores(u, M)| && SumSq(M[i]) == 0.0
    ensures Key(CosineScores(u, M)[i]) == 0.0
  {
    ZeroNormDot(M[i], u);
  }

  lemma RatioAtMostOne(d: real, ra: real, rb: real)
    requires 0.0 <= d <= ra && d <= rb && ra > 0.0 && rb > 0.0
    ensures 0.0 <= d * d / (ra * rb) <= 1.0
  {
    var p := ra * rb;
    assert p > 0.0;
    assert d * d <= ra * d <= p;
    var q := d * d / p;
    assert q * p == d * d;
  }

  /** The cosine of two 0/1 vectors lies between 0 and 1. */
  lemma OneHotCosineOfBounds(row: seq<real>, u: seq<real>)
    requires |row| == |u| && OneHot(row) && OneHot(u)
    ensures 0.0 <= Key(CosineOf(row, u)) <= 1.0
  {
    var d, ra, rb := Dot(row, u), SumSq(row), SumSq(u);
    OneHotDot(row, u);
    SumSqNonNegative(row);
    SumSqNonNegative(u);
    var c := CosineOf(row, u);
    if ra == 0.0 || rb == 0.0 {
      assert c.dot == d == 0.0;
    } else {
      assert c == Cosine(d, ra * rb);
      RatioAtMostOne(d, ra, rb);
      assert Key(c) == d * d / (ra * rb);
    }
  }

  /** Over 0/1 vectors every cosine lies between 0 and 1. */
  lemma OneHotCosineBounds(u: seq<real>, M: seq<seq<real>>, i: nat)
    requires forall r :: 0 <= r < |M| ==> |M[r]| == |u| && OneHot(M[r])
    requires OneHot(u) && i < |CosineScores(u, M)|
    ensures 0.0 <= Key(CosineScores(u, M)[i]) <= 1.0
  {
    if SumSq(u) != 0.0 {
      OneHotCosineOfBounds(M[i], u);
    }
  }

  // ---------------------------------------------------------------------------------------
  // Ordering
  // ---------------------------------------------------------------------------------------

  /** Well-formed ranking input: one key and one popularity per row. */
  predicate Rows(keys: seq<real>, pops: seq<real>, xs: seq<nat>) {
    |keys| == |pops| && forall k :: 0 <= k < |xs| ==> xs[k] < |keys|
  }

  /**
   * The order of `np.lexsort((-pop, -scores))`: a higher score first, then a higher
   * popularity, then (the sort being stable) the lower row number.
   */
  predicate Before(keys: seq<real>, pops: seq<real>, i: nat, j: nat)
    requires i < |keys| && j < |keys| && |pops| == |keys|
  {
    || keys[i] > keys[j]
    || (keys[i] == keys[j] && pops[i] > pops[j])
    || (keys[i] == keys[j] && pops[i] == pops[j] && i < j)
  }

  lemma BeforeTotal(keys: seq<real>, pops: seq<real>, i: nat, j: nat)
    requires i < |keys| && j < |keys| && |pops| == |keys| && i != j
    ensures Before(keys, pops, i, j) != Before(keys, pops, j, i)
  {
  }

  lemma BeforeTransitive(keys: seq<real>, pops: seq<real>, i: nat, j: nat, k: nat)
    requires i < |keys| && j < |keys| && k < |keys| && |pops| == |keys|
    requires Before(keys, pops, i, j) && Before(keys, pops, j, k)
    ensures Before(keys, pops, i, k)
  {
  }

  /** Every row of `xs` comes before every later one. */
  predicate SortedBy(keys: seq<real>, pops: seq<real>, xs: seq<nat>)
    requires Rows(keys, pops, xs)
  {
    forall a, b :: 0 <= a < b < |xs| ==> Before(keys, pops, xs[a], xs[b])
  }

  predicate DistinctRows(xs: seq<nat>) {
    forall a, b :: 0 <= a < b < |xs| ==> xs[a] != xs[b]
  }

  /** Inserts row `x` into the ordered rows `xs` in front of the first row it comes before. */
  function Insert(keys: seq<real>, pops: seq<real>, x: nat, xs: seq<nat>): (r: seq<nat>)
    requires x < |keys| && Rows(keys, pops, xs)
    ensures |r| == |xs| + 1 && Rows(keys, pops, r)
    ensures forall y :: y in r <==> y == x || y in xs
  {
    if xs == [] then [x]
    else if Before(keys, pops, x, xs[0]) then [x] + xs
    else [xs[0]] + Insert(keys, pops, x, xs[1..])
  }

  /** The rows `0 .. n-1` in ranking order. */
  function Order(keys: seq<real>, pops: seq<real>, n: nat): (r: seq<nat>)
    requires n <= |keys| == |pops|
    ensures |r| == n && Rows(keys, pops, r)
    ensures forall y :: y in r <==> 0 <= y < n
  {
    if n == 0 then []
    else
      var rest := Order(keys, pops, n - 1);
      Insert(keys, pops, n - 1, rest)
  }

  lemma {:induction false} InsertSorted(keys: seq<real>, pops: seq<real>, x: nat, xs: seq<nat>)
    requires x < |keys| && Rows(keys, pops, xs) && SortedBy(keys, pops, xs) && DistinctRows(xs) && x !in xs
    ensures SortedBy(keys, pops, Insert(keys, pops, x, xs)) && DistinctRows(Insert(keys, pops, x, xs))
  {
    if xs != [] {
      if Before(keys, pops, x, xs[0]) {
        forall b | 1 <= b < |xs| + 1
          ensures Before(keys, pops, x, ([x] + xs)[b])
        {
          if b > 1 {
            BeforeTransitive(keys, pops, x, xs[0], xs[b - 1]);
          }
        }
      } else {
        BeforeTotal(keys, pops, x, xs[0]);
        assert xs[0] !in xs[1..];
        InsertSorted(keys, pops, x, xs[1..]);
        var rest := Insert(keys, pops, x, xs[1..]);
        forall b | 0 <= b < |rest|
          ensures Before(keys, pops, xs[0], rest[b]) && xs[0] != rest[b]
        {
          assert rest[b] in rest;
          if rest[b] != x {
            var k :| 0 <= k < |xs[1..]| && xs[1..][k] == rest[b];
            assert xs[k + 1] == rest[b];
          }
        }
      }
    }
  }

  /** `Order` is a ranking: its rows are distinct, are exactly `0 .. n-1`, and are sorted. */
  lemma {:induction false} OrderSorted(keys: seq<real>, pops: seq<real>, n: nat)
    requires n <= |keys| == |pops|
    ensures SortedBy(keys, pops, Order(keys, pops, n)) && DistinctRows(Order(keys, pops, n))
  {
    if n > 0 {
      OrderSorted(keys, pops, n - 1);
      InsertSorted(keys, pops, n - 1, Order(keys, pops, n - 1));
    }
  }

  /** `max(1, int(limit or 50))`. */
  function TakeCount(limit: Option<int>): (k: int)
    ensures k >= 1
    ensures limit == None || limit == Some(0) ==> k == 50
    ensures limit.Some? && limit.value > 0 ==> k == limit.value
    ensures limit.Some? && limit.value < 0 ==> k == 1
  {
    var l := if limit.None? || limit.value == 0 then 50 else limit.value;
    if l > 1 then l else 1
  }

  function Min(a: int, b: int): int {
    if a < b then a else b
  }

  /** One entry of the answer. */
  datatype RecoItem = RecoItem(id: int, score: Cosine)

  function Keys(scores: seq<Cosine>): (keys: seq<real>)
    ensures |keys| == |scores| && forall i :: 0 <= i < |scores| ==> keys[i] == Key(scores[i])
  {
    seq(|scores|, i requires 0 <= i < |scores| => Key(scores[i]))
  }

  /** The rows that make the answer: the first `min(k, N)` rows in ranking order. */
  function TopRows(scores: seq<Cosine>, pops: seq<real>, limit: Option<int>): seq<nat>
    requires |pops| == |scores|
  {
    var order := Order(Keys(scores), pops, |scores|);
    order[..Min(TakeCount(limit), |order|)]
  }

  /** The ranking step of `predict_communities` / `predict_posts`. */
  function Ranked(scores: seq<Cosine>, ids: seq<int>, pops: seq<real>, limit: Option<int>): (r: seq<RecoItem>)
    requires |ids| == |pops| == |scores|
  {
    if |scores| == 0 then []
    else
      var rows := TopRows(scores, pops, limit);
      seq(|rows|, p requires 0 <= p < |rows| => RecoItem(ids[rows[p]], scores[rows[p]]))
  }

  /**
   * The answer has `min(k, N)` entries, each the id and score of a distinct row; it is
   * ordered by score, then popularity, then row; and every row left out ranks after every
   * row listed.
   */
  lemma RankedProps(scores: seq<Cosine>, ids: seq<int>, pops: seq<real>, limit: Option<int>)
    requires |ids| == |pops| == |scores|
    ensures |Ranked(scores, ids, pops, limit)| == Min(TakeCount(limit), |scores|)
    ensures var rows := TopRows(scores, pops, limit);
            && |rows| == |Ranked(scores, ids, pops, limit)|
            && Rows(Keys(scores), pops, rows)
            && DistinctRows(rows)
            && SortedBy(Keys(scores), pops, rows)
            && (forall p :: 0 <= p < |rows| ==> Ranked(scores, ids, pops, limit)[p] == RecoItem(ids[rows[p]], scores[rows[p]]))
            && (forall i, j :: i in rows && 0 <= j < |scores| && j !in rows ==> Before(Keys(scores), pops, i, j))
  {
    var keys := Keys(scores);
    var order := Order(keys, pops, |scores|);
    OrderSorted(keys, pops, |scores|);
    var m := Min(TakeCount(limit), |order|);
    var rows := order[..m];
    forall i, j | i in rows && 0 <= j < |scores| && j !in rows
      ensures Before(keys, pops, i, j)
    {
      var a :| 0 <= a < m && rows[a] == i;
      assert j in order;
      var b :| 0 <= b < |order| && order[b] == j;
      assert forall c :: 0 <= c < m ==> order[c] in rows;
      assert a < b;
    }
  }

  /** Two rows with the same score: the more popular one is listed first. */
  lemma PopularityBreaksTies(keys: seq<real>, pops: seq<real>)
    requires |keys| == 2 && keys[0] == keys[1] && pops == [5.0, 20.0]
    ensures Order(keys, pops, 2) == [1, 0]
  {
    assert Order(keys, pops, 1) == [0];
  }
}
