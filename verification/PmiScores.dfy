// The score matrix the program mines incidents with, and what its symmetry is worth
// (ee/experimental/statistical_utils.py, get_alert_pmi_matrix).
//
// `mean` turns the sum of a column into its mean, and `log` takes the number of windows two
// alerts share and the product of their means to the logarithm of the quotient, each with
// whatever rounding the machine does.
module PmiScores {
  import opened JaccardScores
  import opened AlertGraph
  import opened IncidentModel
  import opened IncidentRounds
  import opened Incidents

  /** A floating-point number. */
  datatype Float = Finite(value: real) | PlusInfinity | MinusInfinity | NotANumber

  const BOUND: real := 100.0

  /** `np.clip` */
  function Clip(x: Float): (r: real)
    ensures x != NotANumber ==> -BOUND <= r <= BOUND
  {
    match x
    case Finite(v) => if v < -BOUND then -BOUND else if v > BOUND then BOUND else v
    case PlusInfinity => BOUND
    case MinusInfinity => -BOUND
    case NotANumber => 0.0
  }

  /** The entry of two columns before any is changed. */
  function Entry(x: Occurrences, mean: int -> real, log: (int, real) -> Float, i: nat, j: nat): Float
    requires forall r :: 0 <= r < |x| ==> i < |x[r]| && j < |x[r]|
  {
    log(Dot(x, i, j), mean(ColumnSum(x, i)) * mean(ColumnSum(x, j)))
  }

  /** The score of two columns: nothing on the diagonal or where there is no number. */
  function Pmi(x: Occurrences, mean: int -> real, log: (int, real) -> Float, i: nat, j: nat): real
    requires forall r :: 0 <= r < |x| ==> i < |x[r]| && j < |x[r]|
  {
    if i == j then 0.0 else Clip(Entry(x, mean, log, i, j))
  }

  ghost predicate IsPmi(x: Occurrences, columns: nat, mean: int -> real, log: (int, real) -> Float, m: seq<seq<real>>) {
    && (forall r :: 0 <= r < |x| ==> |x[r]| == columns)
    && |m| == columns && (forall i :: 0 <= i < columns ==> |m[i]| == columns)
    && forall i, j :: 0 <= i < columns && 0 <= j < columns ==> m[i][j] == Pmi(x, mean, log, i, j)
  }

  /** The matrix is filled, cleaned of what is no number, its diagonal is filled with zeros,
      and everything is clipped. */
  method GetAlertPmiMatrix(x: Occurrences, columns: nat, mean: int -> real, log: (int, real) -> Float)
    returns (m: seq<seq<real>>)
    requires forall r :: 0 <= r < |x| ==> |x[r]| == columns
    ensures IsPmi(x, columns, mean, log, m)
  {
    hide Entry, Clip;
    var dense := new Float[columns, columns](
      (i: nat, j: nat) requires i < columns && j < columns => Entry(x, mean, log, i, j));
    forall i, j | 0 <= i < columns && 0 <= j < columns {
      dense[i, j] := Number(dense[i, j]);
    }
    for k := 0 to columns
      invariant forall i, j :: 0 <= i < columns && 0 <= j < columns ==>
                  dense[i, j] == if i == j && i < k then Finite(0.0) else Number(Entry(x, mean, log, i, j))
    {
      dense[k, k] := Finite(0.0);
    }
    m := seq(columns, i requires 0 <= i < columns reads dense =>
           seq(columns, j requires 0 <= j < columns reads dense => Clip(dense[i, j])));
    forall i, j | 0 <= i < columns && 0 <= j < columns ensures m[i][j] == Pmi(x, mean, log, i, j) {
      ClipNumber(Entry(x, mean, log, i, j));
    }
  }

  /** `pmi[np.isnan(pmi)] = 0`, for one entry. */
  function Number(x: Float): Float {
    if x.NotANumber? then Finite(0.0) else x
  }

  lemma ClipNumber(x: Float)
    ensures Clip(Number(x)) == Clip(x) && Clip(Finite(0.0)) == 0.0
  {}

  // ---- Symmetry ----

  lemma {:induction false} DotSymmetric(x: Occurrences, i: nat, j: nat)
    requires forall r :: 0 <= r < |x| ==> i < |x[r]| && j < |x[r]|
    ensures Dot(x, i, j) == Dot(x, j, i)
  {
    if x != [] {
      DotSymmetric(x[..|x| - 1], i, j);
    }
  }

  /** The matrix is symmetric, whatever the rounding. */
  lemma PmiSymmetric(x: Occurrences, columns: nat, mean: int -> real, log: (int, real) -> Float, m: seq<seq<real>>,
                     i: nat, j: nat)
    requires IsPmi(x, columns, mean, log, m) && i < columns && j < columns
    ensures m[i][j] == m[j][i]
  {
    DotSymmetric(x, i, j);
    Commutes(mean(ColumnSum(x, i)), mean(ColumnSum(x, j)));
    hide Dot, ColumnSum, Clip;
  }

  lemma Commutes(a: real, b: real)
    ensures a * b == b * a
  {}

  /** `{fingerprint: i for i, fingerprint in enumerate(fingerprints)}` */
  function IndexOf(fingerprints: seq<string>): (index: map<string, nat>)
    ensures forall f :: f in index <==> f in fingerprints
    ensures forall f :: f in index ==> index[f] < |fingerprints| && fingerprints[index[f]] == f
  {
    if fingerprints == [] then map[]
    else
      var n := |fingerprints| - 1;
      assert fingerprints == fingerprints[..n] + [fingerprints[n]];
      IndexOf(fingerprints[..n])[fingerprints[n] := n]
  }

  /** The scores are those of the program. */
  ghost predicate FromPmi(s: Scores) {
    exists x, columns, mean, log, fingerprints ::
      IsPmi(x, columns, mean, log, s.values) && |fingerprints| == columns && s.index == IndexOf(fingerprints)
  }

  lemma PmiScoresSymmetric(s: Scores, threshold: real, names: set<string>)
    requires FromPmi(s)
    ensures s.Valid() && SymmetricOn(s, threshold, names)
  {
    var x, columns, mean, log, fingerprints :|
      IsPmi(x, columns, mean, log, s.values) && |fingerprints| == columns && s.index == IndexOf(fingerprints);
    assert s.Valid();
    forall f, g | f in s.index && g in s.index
      ensures s.values[s.index[f]][s.index[g]] == s.values[s.index[g]][s.index[f]]
    {
      PmiSymmetric(x, columns, mean, log, s.values, s.index[f], s.index[g]);
    }
    hide IsPmi;
  }

  // ---- What the libraries choose makes no difference ----

  lemma {:induction false} DistinctLength(fs: seq<string>)
    requires AlertGraph.Distinct(fs)
    ensures |Members(fs)| == |fs|
  {
    if fs == [] {
      assert Members(fs) == {};
    } else {
      var n := |fs| - 1;
      assert fs == fs[..n] + [fs[n]];
      DistinctLength(fs[..n]);
      assert Members(fs) == Members(fs[..n]) + {fs[n]};
      assert fs[n] !in Members(fs[..n]);
    }
  }

  /** Two lists of the same fingerprints give the same graph. */
  lemma OneGraph(s: Scores, threshold: real, names: set<string>, fs: seq<string>, g: Graph, fs': seq<string>, g': Graph)
    requires s.Valid() && SymmetricOn(s, threshold, names) && Lists(fs, names) && Lists(fs', names)
    requires IsGraphOf(s, threshold, fs, g) && IsGraphOf(s, threshold, fs', g')
    ensures g == g'
  {
    DistinctLength(fs);
    DistinctLength(fs');
    if |fs| == 1 {
      assert fs[0] in Members(fs) && fs'[0] in Members(fs');
    } else {
      hide IsGraphOf, SymmetricOn;
      SameGraph(s, threshold, fs, g, fs', g');
    }
  }

  /** With symmetric scores, however a set is turned into a list and whatever the order of
      components, the components are the same. */
  lemma SameComponents(s: Scores, threshold: real, names: set<string>, parts: seq<set<string>>, parts': seq<set<string>>)
    requires s.Valid() && SymmetricOn(s, threshold, names)
    requires ComponentsOver(s, threshold, names, parts) && ComponentsOver(s, threshold, names, parts')
    ensures forall c :: c in parts <==> c in parts'
  {
    hide IsGraphOf, SymmetricOn, Components, Lists, Scores.Valid;
    var fs, g :| Lists(fs, names) && IsGraphOf(s, threshold, fs, g) && ListsComponents(parts, g);
    var fs', g' :| Lists(fs', names) && IsGraphOf(s, threshold, fs', g') && ListsComponents(parts', g');
    OneGraph(s, threshold, names, fs, g, fs', g');
  }

  /** With the program's own scores, what a batch does to the incidents, which ones it
      creates, and whether it breaks off, does not depend on the order of any list the
      libraries hand back. */
  lemma BatchIndependent(s: Scores, threshold: real, states: seq<State>, alerts: seq<Alert>, settings: Settings,
                         parts: seq<set<string>>, parts': seq<set<string>>)
    requires FromPmi(s) && s.Valid()
    requires ComponentsOver(s, threshold, Amended(states, Fingerprints(alerts)), parts)
    requires ComponentsOver(s, threshold, Amended(states, Fingerprints(alerts)), parts')
    ensures var p, p' := Process(states, parts, alerts, settings), Process(states, parts', alerts, settings);
            && (Broken(p) <==> Broken(p'))
            && (!Broken(p) ==> p'.states == p.states && forall i :: Created(i) in p'.outcomes <==> Created(i) in p.outcomes)
  {
    hide *;
    var names := Amended(states, Fingerprints(alerts));
    PmiScoresSymmetric(s, threshold, names);
    SameComponents(s, threshold, names, parts, parts');
    ComponentsApart(s, threshold, names, parts);
    ComponentsApart(s, threshold, names, parts');
    BatchFailsIff(states, parts, alerts, settings);
    BatchFailsIff(states, parts', alerts, settings);
    if !Broken(Process(states, parts, alerts, settings)) {
      OrderMakesNoDifference(states, parts, parts', alerts, settings);
    }
  }
}
