// What the program's scores say about alerts that never occur together
// (ee/experimental/statistical_utils.py, get_alert_pmi_matrix;
// ee/experimental/graph_utils.py, create_graph).
module PmiValues {
  import opened AlertGraph
  import opened JaccardScores
  import opened PmiScores

  /** Each score is 0 between an alert and itself or when it is no number, and otherwise lies
      between -100 and 100: it is the number the logarithm gives if that lies there, and the
      nearer bound if not. */
  lemma EntriesAre(x: Occurrences, columns: nat, mean: int -> real, log: (int, real) -> Float, m: seq<seq<real>>,
                   i: nat, j: nat, shared: int, product: real)
    requires IsPmi(x, columns, mean, log, m) && i < columns && j < columns
    requires shared == Dot(x, i, j) && product == mean(ColumnSum(x, i)) * mean(ColumnSum(x, j))
    ensures -100.0 <= m[i][j] <= 100.0
    ensures i == j ==> m[i][j] == 0.0
    ensures i != j ==>
              match log(shared, product)
              case NotANumber => m[i][j] == 0.0
              case MinusInfinity => m[i][j] == -100.0
              case PlusInfinity => m[i][j] == 100.0
              case Finite(v) =>
                && (-100.0 <= v <= 100.0 ==> m[i][j] == v)
                && (v < -100.0 ==> m[i][j] == -100.0) && (v > 100.0 ==> m[i][j] == 100.0)
  {
    hide Dot, ColumnSum;
    assert m[i][j] == Pmi(x, mean, log, i, j);
    assert Entry(x, mean, log, i, j) == log(shared, product);
    hide IsPmi, Entry;
  }

  /** The logarithm of nothing over a positive number is minus infinity. */
  ghost predicate Logs(log: (int, real) -> Float) {
    forall q :: q > 0.0 ==> log(0, q) == MinusInfinity
  }

  ghost predicate Means(mean: int -> real) {
    forall n :: n > 0 ==> mean(n) > 0.0
  }

  /** Both alerts occur, but never in one window. */
  ghost predicate Strangers(x: Occurrences, columns: nat, i: nat, j: nat)
    requires Binary(x, columns) && i < columns && j < columns
  {
    && (exists r :: 0 <= r < |x| && x[r][i] == 1) && (exists r :: 0 <= r < |x| && x[r][j] == 1)
    && (forall r :: 0 <= r < |x| ==> x[r][i] == 0 || x[r][j] == 0)
  }

  /** Such alerts score lowest. */
  lemma StrangersScoreLowest(x: Occurrences, columns: nat, mean: int -> real, log: (int, real) -> Float,
                             m: seq<seq<real>>, i: nat, j: nat)
    requires Binary(x, columns) && IsPmi(x, columns, mean, log, m) && i < columns && j < columns
    requires Logs(log) && Means(mean) && Strangers(x, columns, i, j)
    ensures m[i][j] == -100.0
    ensures forall k, l :: 0 <= k < columns && 0 <= l < columns ==> m[i][j] <= m[k][l]
  {
    Occurs(x, columns, i);
    Occurs(x, columns, j);
    DotIsCount(x, columns, i, j);
    assert Windows(x, i) * Windows(x, j) == {};
    Positive(mean(ColumnSum(x, i)), mean(ColumnSum(x, j)));
    EntriesAre(x, columns, mean, log, m, i, j, 0, mean(ColumnSum(x, i)) * mean(ColumnSum(x, j)));
    hide Dot, ColumnSum, Windows, IsPmi;
    forall k: nat, l: nat | k < columns && l < columns ensures -100.0 <= m[k][l] {
      NoneLower(x, columns, mean, log, m, k, l);
    }
  }

  lemma NoneLower(x: Occurrences, columns: nat, mean: int -> real, log: (int, real) -> Float, m: seq<seq<real>>,
                  i: nat, j: nat)
    requires IsPmi(x, columns, mean, log, m) && i < columns && j < columns
    ensures -100.0 <= m[i][j]
  {
    hide Dot, ColumnSum;
    EntriesAre(x, columns, mean, log, m, i, j, Dot(x, i, j), mean(ColumnSum(x, i)) * mean(ColumnSum(x, j)));
  }

  lemma Occurs(x: Occurrences, columns: nat, i: nat)
    requires Binary(x, columns) && i < columns && exists r :: 0 <= r < |x| && x[r][i] == 1
    ensures ColumnSum(x, i) > 0
  {
    SumIsCount(x, columns, i);
    var r :| 0 <= r < |x| && x[r][i] == 1;
    assert r in Windows(x, i);
  }

  lemma Positive(a: real, b: real)
    requires a > 0.0 && b > 0.0
    ensures a * b > 0.0
  {}

  /** And whatever the list, the program's graph never joins them, at any threshold from the
      lowest score on. */
  lemma StrangersNotJoined(x: Occurrences, columns: nat, mean: int -> real, log: (int, real) -> Float, s: Scores,
                           fingerprints: seq<string>, threshold: real, fs: seq<string>, g: Graph, a: string, b: string)
    requires Binary(x, columns) && IsPmi(x, columns, mean, log, s.values)
    requires |fingerprints| == columns && s.index == IndexOf(fingerprints)
    requires Logs(log) && Means(mean) && threshold >= -100.0
    requires a in s.index && b in s.index && Strangers(x, columns, s.index[a], s.index[b])
    requires s.Valid() && AlertGraph.Distinct(fs) && IsGraphOf(s, threshold, fs, g)
    ensures (a, b) !in g.edges
  {
    StrangersScoreLowest(x, columns, mean, log, s.values, s.index[a], s.index[b]);
    assert FromPmi(s);
    if |fs| != 1 && (a, b) in g.edges {
      PmiScoresSymmetric(s, threshold, Members(fs));
      EdgeIffOver(s, threshold, fs, g, a, b);
    }
    hide IsPmi, Built;
  }
}
