// Jaccard scores between alerts, computed from means and a matrix product
// (ee/experimental/statistical_utils.py, get_alert_jaccard_matrix and get_jaccard_scores).
// Floating-point numbers are taken as real numbers.
module JaccardScores {
  /** One row per window, one column per fingerprint; 1 where the alert occurs. */
  type Occurrences = seq<seq<int>>

  ghost predicate Binary(x: Occurrences, columns: nat) {
    && (forall r :: 0 <= r < |x| ==> |x[r]| == columns)
    && (forall r, c :: 0 <= r < |x| && 0 <= c < columns ==> x[r][c] == 0 || x[r][c] == 1)
  }

  /** There is at least one window. */
  ghost predicate Valid(x: Occurrences, columns: nat) {
    |x| > 0 && Binary(x, columns)
  }

  /** The sum of one column. */
  function ColumnSum(x: Occurrences, i: nat): int
    requires forall r :: 0 <= r < |x| ==> i < |x[r]|
  {
    if x == [] then 0 else ColumnSum(x[..|x| - 1], i) + x[|x| - 1][i]
  }

  /** One entry of the transpose times the matrix. */
  function Dot(x: Occurrences, i: nat, j: nat): int
    requires forall r :: 0 <= r < |x| ==> i < |x[r]| && j < |x[r]|
  {
    if x == [] then 0 else Dot(x[..|x| - 1], i, j) + x[|x| - 1][i] * x[|x| - 1][j]
  }

  function Score(pa: real, pb: real, pab: real): real {
    var union := pa + pb - pab;
    if union != 0.0 then pab / union else 0.0
  }

  /** The windows in which an alert occurs. */
  ghost function Windows(x: Occurrences, i: nat): set<nat>
    requires forall r :: 0 <= r < |x| ==> i < |x[r]|
  {
    set r: nat | r < |x| && x[r][i] == 1
  }

  /** What a Jaccard score is: shared windows over all windows of the two, 0 if there are
      none, and 1 between an alert and itself. */
  ghost function Jaccard(x: Occurrences, i: nat, j: nat): real
    requires forall r :: 0 <= r < |x| ==> i < |x[r]| && j < |x[r]|
  {
    var both, either := Windows(x, i) * Windows(x, j), Windows(x, i) + Windows(x, j);
    if i == j then 1.0 else if either == {} then 0.0 else |both| as real / |either| as real
  }

  /** The matrix from means and the product, with its diagonal filled in place. */
  method GetAlertJaccardMatrix(x: Occurrences, columns: nat) returns (m: array2<real>)
    requires Valid(x, columns)
    ensures m.Length0 == m.Length1 == columns
    ensures forall i, j :: 0 <= i < columns && 0 <= j < columns ==> m[i, j] == Jaccard(x, i, j)
  {
    var rows := |x| as real;
    var means := seq(columns, i requires 0 <= i < columns => ColumnSum(x, i) as real / rows);
    m := new real[columns, columns](
      (i: nat, j: nat) requires i < columns && j < columns =>
        Score(means[i], means[j], Dot(x, i, j) as real / rows));
    for k := 0 to columns
      invariant forall i, j :: 0 <= i < columns && 0 <= j < columns ==>
                  m[i, j] == if i == j && i < k then 1.0
                             else Score(means[i], means[j], Dot(x, i, j) as real / rows)
    {
      m[k, k] := 1.0;
    }
    forall i, j | 0 <= i < columns && 0 <= j < columns ensures m[i, j] == Jaccard(x, i, j) {
      ScoreIsJaccard(x, columns, i, j);
    }
  }

  lemma {:induction false} SumIsCount(x: Occurrences, columns: nat, i: nat)
    requires Binary(x, columns) && i < columns
    ensures ColumnSum(x, i) == |Windows(x, i)|
  {
    if x != [] {
      var n := |x| - 1;
      SumIsCount(x[..n], columns, i);
      assert Windows(x, i) == Windows(x[..n], i) + if x[n][i] == 1 then {n} else {};
    }
  }

  lemma BinaryProduct(a: int, b: int)
    requires (a == 0 || a == 1) && (b == 0 || b == 1)
    ensures a * b == if a == 1 && b == 1 then 1 else 0
  {}

  lemma {:induction false} DotIsCount(x: Occurrences, columns: nat, i: nat, j: nat)
    requires Binary(x, columns) && i < columns && j < columns
    ensures Dot(x, i, j) == |Windows(x, i) * Windows(x, j)|
  {
    if x != [] {
      var n := |x| - 1;
      DotIsCount(x[..n], columns, i, j);
      var before := Windows(x[..n], i) * Windows(x[..n], j);
      assert Windows(x, i) * Windows(x, j) == before + if x[n][i] == 1 && x[n][j] == 1 then {n} else {};
      BinaryProduct(x[n][i], x[n][j]);
    }
  }

  /** What the program computes is the Jaccard score. */
  lemma ScoreIsJaccard(x: Occurrences, columns: nat, i: nat, j: nat)
    requires Valid(x, columns) && i < columns && j < columns
    ensures var n := |x| as real;
            var score := Score(ColumnSum(x, i) as real / n, ColumnSum(x, j) as real / n, Dot(x, i, j) as real / n);
            i != j ==> score == Jaccard(x, i, j)
  {
    SumIsCount(x, columns, i);
    SumIsCount(x, columns, j);
    DotIsCount(x, columns, i, j);
    var a, b := Windows(x, i), Windows(x, j);
    assert |a + b| == |a| + |b| - |a * b|;
    ScaledScore(|a| as real, |b| as real, |a * b| as real, |x| as real);
  }

  /** Dividing everything by the number of windows makes no difference. */
  lemma ScaledScore(a: real, b: real, c: real, n: real)
    requires n > 0.0
    ensures Score(a / n, b / n, c / n) == if a + b - c == 0.0 then 0.0 else c / (a + b - c)
  {
    var u := a + b - c;
    assert a / n + b / n - c / n == u / n;
    if u != 0.0 {
      assert u / n != 0.0 by {
        assert u / n * n == u;
      }
      assert (c / n) / (u / n) == c / u by {
        assert c / n == (c / u) * (u / n);
      }
    }
  }

  /** Scores are symmetric and lie between 0 and 1. */
  lemma JaccardBounds(x: Occurrences, columns: nat, i: nat, j: nat)
    requires Valid(x, columns) && i < columns && j < columns
    ensures Jaccard(x, i, j) == Jaccard(x, j, i) && 0.0 <= Jaccard(x, i, j) <= 1.0
  {
    var a, b := Windows(x, i), Windows(x, j);
    assert a * b == b * a && a + b == b + a;
    Smaller(a * b, a + b);
    if a + b != {} {
      Ratio(|a * b|, |a + b|);
    }
  }

  lemma Smaller(a: set<nat>, b: set<nat>)
    requires a <= b
    ensures |a| <= |b|
  {
    assert b == a + (b - a);
  }

  lemma Ratio(a: nat, b: nat)
    requires a <= b && b > 0
    ensures 0.0 <= a as real / b as real <= 1.0
  {}

  /** A score is 1 exactly when the two alerts occur in the same windows, if they occur. */
  lemma FullScoreIff(x: Occurrences, columns: nat, i: nat, j: nat)
    requires Valid(x, columns) && i < columns && j < columns && i != j
    ensures Jaccard(x, i, j) == 1.0 <==> Windows(x, i) == Windows(x, j) != {}
  {
    var a, b := Windows(x, i), Windows(x, j);
    Smaller(a * b, a + b);
    if a + b != {} {
      if |a * b| == |a + b| {
        assert |(a + b) - a * b| == 0;
        assert a == b;
      } else {
        SmallRatio(|a * b|, |a + b|);
      }
    }
  }

  lemma SmallRatio(a: nat, b: nat)
    requires a < b
    ensures a as real / b as real < 1.0
  {}
}
