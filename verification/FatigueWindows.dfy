// Counting alerts in consecutive windows and scoring them (keep-ui/utils/fatigue.ts).
// Times are whole milliseconds; `round` is what the machine makes of the exact result of a
// division or multiplication.
module FatigueWindows {
  import opened Wrappers
  import Selections

  const WINDOW_SIZE: int := 60 * 60 * 1000
  const MAX_ALERTS_PER_WINDOW: int := 50

  /** `toLowerCase`, for the letters that the names of time units have. */
  function LowerCase(s: string): string {
    if s == "" then "" else [if 'A' <= s[0] <= 'Z' then s[0] - 'A' + 'a' else s[0]] + LowerCase(s[1..])
  }

  /** The window size and the count that is fatiguing, by time unit. */
  function Limits(unit: string): (r: (int, int))
    ensures r.0 > 0 && r.1 > 0
  {
    if LowerCase(unit) == "minutes" then (WINDOW_SIZE / 60, 10)
    else if LowerCase(unit) == "days" then (WINDOW_SIZE * 24, 100)
    else (WINDOW_SIZE, MAX_ALERTS_PER_WINDOW)
  }

  function Score(round: real -> real, count: nat, max: int): int
    requires max > 0
  {
    if count == 1 then 0
    else
      var share := round(round(count as real / max as real) * 100.0);
      var raised := if share < 1.0 then 1.0 else share;
      (if raised > 100.0 then 100.0 else raised).Floor
  }

  datatype Window = Window(time: int, count: nat, score: int)

  ghost predicate Sorted(ts: seq<int>) {
    forall i, j :: 0 <= i < j < |ts| ==> ts[i] <= ts[j]
  }

  /** How many of the times lie in the half-open window. */
  function CountIn(ts: seq<int>, from: int, to: int): (n: nat)
    ensures n <= |ts|
  {
    if ts == [] then 0
    else CountIn(ts[..|ts| - 1], from, to) + if from <= ts[|ts| - 1] < to then 1 else 0
  }

  function InsertTime(ts: seq<int>, t: int): seq<int> {
    if ts == [] then [t]
    else if ts[|ts| - 1] <= t then ts + [t]
    else InsertTime(ts[..|ts| - 1], t) + [ts[|ts| - 1]]
  }

  /** `sort` by time. */
  function Sort(ts: seq<int>): seq<int> {
    if ts == [] then [] else InsertTime(Sort(ts[..|ts| - 1]), ts[|ts| - 1])
  }

  /** Where window `k` starts. */
  function Start(first: int, size: int, k: nat): int {
    if k == 0 then first else Start(first, size, k - 1) + size
  }

  /** Window `k` of a series that starts at `first`. */
  function WindowAt(round: real -> real, ts: seq<int>, first: int, size: int, max: int, k: nat): Window
    requires max > 0
  {
    var from := Start(first, size, k);
    var n := CountIn(ts, from, from + size);
    Window(from, n, Score(round, n, max))
  }

  /** The results so far are the first windows over the given times. */
  ghost predicate Filled(round: real -> real, results: seq<Window>, ts: seq<int>, first: int, size: int, max: int)
    requires max > 0
  {
    forall k :: 0 <= k < |results| ==> results[k] == WindowAt(round, ts, first, size, max, k)
  }

  /** `calculateFatigue`. An empty list fails when its first alert is looked up. Otherwise
      the windows follow each other from the earliest alert to the latest, each with the
      number of alerts inside it. */
  method CalculateFatigue(round: real -> real, times: seq<int>, unit: string) returns (r: Result<seq<Window>, ()>)
    ensures r.Failure? <==> times == []
    ensures r.Success? ==>
              var (size, max) := Limits(unit);
              var sorted := Sort(times);
              && |sorted| == |times| && |r.value| > 0
              && Start(sorted[0], size, |r.value| - 1) <= sorted[|sorted| - 1] < Start(sorted[0], size, |r.value|)
              && Filled(round, r.value, times, sorted[0], size, max)
  {
    hide Limits, LowerCase, Score;
    SortCounts(times, 0, 0);
    if times == [] {
      return Failure(());
    }
    var (size, max) := Limits(unit);
    var sorted := Sort(times);
    var results := CountWindows(round, sorted, size, max);
    forall k: nat | k < |results| ensures results[k] == WindowAt(round, times, sorted[0], size, max, k) {
      SortCounts(times, Start(sorted[0], size, k), Start(sorted[0], size, k) + size);
    }
    return Success(results);
  }

  method CountWindows(round: real -> real, sorted: seq<int>, size: int, max: int) returns (results: seq<Window>)
    requires sorted != [] && Sorted(sorted) && size > 0 && max > 0
    ensures |results| > 0 && Filled(round, results, sorted, sorted[0], size, max)
    ensures Start(sorted[0], size, |results| - 1) <= sorted[|sorted| - 1] < Start(sorted[0], size, |results|)
  {
    hide CountIn, Score, WindowAt;
    var first := sorted[0];
    var windowStart := first;
    var count: nat := 0;
    results := [];
    NoneLater([], first, first + size);
    for i := 0 to |sorted|
      invariant windowStart == Start(first, size, |results|)
      invariant count == CountIn(sorted[..i], windowStart, windowStart + size)
      invariant Filled(round, results, sorted[..i], first, size, max)
      invariant if i == 0 then windowStart == first else windowStart <= sorted[i - 1] < windowStart + size
    {
      var t := sorted[i];
      if t - windowStart < size {
        count := count + 1;
      } else {
        while t - windowStart >= size
          invariant windowStart == Start(first, size, |results|)
          invariant count == CountIn(sorted[..i], windowStart, windowStart + size)
          invariant Filled(round, results, sorted[..i], first, size, max)
          invariant windowStart <= t && (i > 0 ==> sorted[i - 1] < windowStart + size)
        {
          WindowIs(round, sorted[..i], first, size, max, |results|);
          results := results + [Window(windowStart, count, Score(round, count, max))];
          windowStart := windowStart + size;
          NoneLater(sorted[..i], windowStart, windowStart + size);
          count := 0;
        }
        count := count + 1;
      }
      OneMoreTime(sorted, i, windowStart, windowStart + size);
      forall k: nat | k < |results| ensures WindowAt(round, sorted[..i + 1], first, size, max, k) == results[k] {
        EarlierUnchanged(round, sorted, i, first, size, max, k, |results|);
      }
    }
    assert sorted[..|sorted|] == sorted;
    LastCounted(sorted, windowStart, size);
    if count > 0 {
      WindowIs(round, sorted, first, size, max, |results|);
      results := results + [Window(windowStart, count, Score(round, count, max))];
    }
  }

  lemma WindowIs(round: real -> real, ts: seq<int>, first: int, size: int, max: int, k: nat)
    requires max > 0
    ensures var from := Start(first, size, k);
            var n := CountIn(ts, from, from + size);
            WindowAt(round, ts, first, size, max, k) == Window(from, n, Score(round, n, max))
  {}

  lemma {:induction false} NoneLater(ts: seq<int>, from: int, to: int)
    requires forall k :: 0 <= k < |ts| ==> ts[k] < from
    ensures CountIn(ts, from, to) == 0
  {
    if ts != [] {
      NoneLater(ts[..|ts| - 1], from, to);
    }
  }

  lemma OneMoreTime(ts: seq<int>, i: nat, from: int, to: int)
    requires i < |ts|
    ensures CountIn(ts[..i + 1], from, to) == CountIn(ts[..i], from, to) + if from <= ts[i] < to then 1 else 0
  {
    assert ts[..i + 1][..i] == ts[..i];
  }

  /** A time past window `k` does not count in it. */
  lemma EarlierUnchanged(round: real -> real, ts: seq<int>, i: nat, first: int, size: int, max: int, k: nat, n: nat)
    requires i < |ts| && size > 0 && max > 0 && k < n && Start(first, size, n) <= ts[i]
    ensures WindowAt(round, ts[..i + 1], first, size, max, k) == WindowAt(round, ts[..i], first, size, max, k)
  {
    StartsGrow(first, size, k + 1, n);
    OneMoreTime(ts, i, Start(first, size, k), Start(first, size, k) + size);
  }

  lemma LastCounted(ts: seq<int>, from: int, size: int)
    requires ts != [] && from <= ts[|ts| - 1] < from + size
    ensures CountIn(ts, from, from + size) > 0
  {}

  lemma {:induction false} StartsGrow(first: int, size: int, k: nat, n: nat)
    requires size > 0 && k <= n
    ensures Start(first, size, k) <= Start(first, size, n)
  {
    if k < n {
      StartsGrow(first, size, k, n - 1);
    }
  }

  // ---- Sorting ----

  lemma {:induction false} InsertSorted(ts: seq<int>, t: int)
    requires Sorted(ts)
    ensures var r := InsertTime(ts, t);
            && |r| == |ts| + 1 && Sorted(r)
            && r[|ts|] == if ts == [] || ts[|ts| - 1] <= t then t else ts[|ts| - 1]
  {
    if ts != [] && ts[|ts| - 1] > t {
      InsertSorted(ts[..|ts| - 1], t);
    }
  }

  lemma {:induction false} InsertCounts(ts: seq<int>, t: int, from: int, to: int)
    ensures CountIn(InsertTime(ts, t), from, to) == CountIn(ts, from, to) + if from <= t < to then 1 else 0
  {
    hide CountIn;
    if ts == [] || ts[|ts| - 1] <= t {
      assert InsertTime(ts, t) == ts + [t];
      CountAppend(ts, t, from, to);
    } else {
      var before, last := ts[..|ts| - 1], ts[|ts| - 1];
      assert ts == before + [last];
      InsertCounts(before, t, from, to);
      CountAppend(before, last, from, to);
      CountAppend(InsertTime(before, t), last, from, to);
    }
  }

  lemma CountAppend(ts: seq<int>, t: int, from: int, to: int)
    ensures CountIn(ts + [t], from, to) == CountIn(ts, from, to) + if from <= t < to then 1 else 0
  {
    assert (ts + [t])[..|ts|] == ts;
  }

  lemma {:induction false} SortCounts(ts: seq<int>, from: int, to: int)
    ensures |Sort(ts)| == |ts| && Sorted(Sort(ts)) && CountIn(Sort(ts), from, to) == CountIn(ts, from, to)
  {
    if ts != [] {
      SortCounts(ts[..|ts| - 1], from, to);
      InsertSorted(Sort(ts[..|ts| - 1]), ts[|ts| - 1]);
      InsertCounts(Sort(ts[..|ts| - 1]), ts[|ts| - 1], from, to);
    }
  }

  // ---- What the counts and scores are worth ----

  /** The counts of the first `n` windows together. */
  function Total(ts: seq<int>, first: int, size: int, n: nat): nat {
    if n == 0 then 0
    else
      var from := Start(first, size, n - 1);
      Total(ts, first, size, n - 1) + CountIn(ts, from, from + size)
  }

  /** Every alert is counted in exactly one window: the counts add up. */
  lemma CountsAddUp(times: seq<int>, size: int, n: nat)
    requires times != [] && size > 0
    requires |Sort(times)| == |times| && Sort(times)[|times| - 1] < Start(Sort(times)[0], size, n)
    ensures Total(times, Sort(times)[0], size, n) == |times|
  {
    var sorted := Sort(times);
    TotalIsRange(times, sorted[0], size, n);
    SortCounts(times, sorted[0], Start(sorted[0], size, n));
    AllCounted(sorted, sorted[0], Start(sorted[0], size, n));
  }

  lemma {:induction false} AllCounted(ts: seq<int>, from: int, to: int)
    requires forall k :: 0 <= k < |ts| ==> from <= ts[k] < to
    ensures CountIn(ts, from, to) == |ts|
  {
    if ts != [] {
      AllCounted(ts[..|ts| - 1], from, to);
    }
  }

  lemma {:induction false} CountSplits(ts: seq<int>, from: int, middle: int, to: int)
    requires from <= middle <= to
    ensures CountIn(ts, from, to) == CountIn(ts, from, middle) + CountIn(ts, middle, to)
  {
    if ts != [] {
      CountSplits(ts[..|ts| - 1], from, middle, to);
    }
  }

  lemma {:induction false} TotalIsRange(ts: seq<int>, first: int, size: int, n: nat)
    requires size > 0
    ensures Total(ts, first, size, n) == CountIn(ts, first, Start(first, size, n))
  {
    if n == 0 {
      AllOrNone(ts, first);
    } else {
      TotalIsRange(ts, first, size, n - 1);
      StartsGrow(first, size, 0, n - 1);
      CountSplits(ts, first, Start(first, size, n - 1), Start(first, size, n));
    }
  }

  lemma {:induction false} AllOrNone(ts: seq<int>, at: int)
    ensures CountIn(ts, at, at) == 0
  {
    if ts != [] {
      AllOrNone(ts[..|ts| - 1], at);
    }
  }

  /** Rounding keeps the order and leaves zero alone, as every rounding mode does. */
  ghost predicate Rounds(round: real -> real) {
    round(0.0) == 0.0 && forall x, y :: x <= y ==> round(x) <= round(y)
  }

  /** Scores lie between 0 and 100, and a larger count never scores less, except that an
      empty window scores more than one with a single alert. */
  lemma ScoreGrows(round: real -> real, a: nat, b: nat, max: int)
    requires Rounds(round) && max > 0 && a <= b
    ensures 0 <= Score(round, a, max) <= 100
    ensures Score(round, a, max) <= Score(round, b, max) <==> !(a == 0 && b == 1)
    ensures Score(round, 0, max) == 1 && Score(round, 1, max) == 0
  {
    ShareGrows(round, a, b, max);
    assert 0 as real / max as real == 0.0;
    hide Rounds;
  }

  lemma ShareGrows(round: real -> real, a: nat, b: nat, max: int)
    requires Rounds(round) && max > 0 && a <= b
    ensures round(0.0) == 0.0
    ensures round(round(a as real / max as real) * 100.0) <= round(round(b as real / max as real) * 100.0)
  {
    var d := (b - a) as real / max as real;
    assert d >= 0.0;
    assert b as real / max as real == a as real / max as real + d;
    var x, y := round(a as real / max as real), round(b as real / max as real);
    assert x <= y && x * 100.0 <= y * 100.0;
  }

  // ---- The numbers ----

  /** The same letters, in upper or lower case. */
  predicate Spells(s: string, lower: string, upper: string) {
    |s| == |lower| == |upper| && forall k :: 0 <= k < |s| ==> s[k] == lower[k] || s[k] == upper[k]
  }

  /** Windows of a minute with 10 alerts, of a day with 100, and otherwise of an hour with
      50, however the unit is written. */
  lemma LimitsAre(unit: string)
    ensures Limits(unit)
         == if Spells(unit, "minutes", "MINUTES") then (60000, 10)
            else if Spells(unit, "days", "DAYS") then (86400000, 100)
            else (3600000, 50)
  {
    LowerCaseAt(unit);
    assert LowerCase(unit) == "minutes" <==> Spells(unit, "minutes", "MINUTES") by {
      SpellsIff(unit, "minutes", "MINUTES");
    }
    assert LowerCase(unit) == "days" <==> Spells(unit, "days", "DAYS") by {
      SpellsIff(unit, "days", "DAYS");
    }
  }

  lemma {:induction false} LowerCaseAt(s: string)
    ensures |LowerCase(s)| == |s|
    ensures forall k :: 0 <= k < |s| ==> LowerCase(s)[k] == if 'A' <= s[k] <= 'Z' then s[k] - 'A' + 'a' else s[k]
  {
    if s != "" {
      LowerCaseAt(s[1..]);
    }
  }

  lemma SpellsIff(s: string, lower: string, upper: string)
    requires |lower| == |upper|
    requires forall k :: 0 <= k < |lower| ==> 'a' <= lower[k] <= 'z' && upper[k] == lower[k] - 'a' + 'A'
    ensures LowerCase(s) == lower <==> Spells(s, lower, upper)
  {
    LowerCaseAt(s);
    hide LowerCase;
    if Spells(s, lower, upper) {
      forall k | 0 <= k < |s| ensures LowerCase(s)[k] == lower[k] {}
    }
  }

  /** Without rounding, a window scores the whole per cent of the fatiguing count it has, at
      least 1 and at most 100, but 0 for a single alert. */
  lemma ExactScore(round: real -> real, count: nat, max: int)
    requires max > 0 && forall x :: round(x) == x
    ensures var score := Score(round, count, max);
            && (count == 1 ==> score == 0)
            && (count != 1 && count * 100 < max ==> score == 1)
            && (count != 1 && count >= max ==> score == 100)
            && (count != 1 && max <= count * 100 && count < max ==> score * max <= count * 100 < score * max + max)
  {
    var share := count as real / max as real * 100.0;
    ScoreIs(round, count, max, share);
    hide *;
    ShareTimes(count, max, share);
    ShareIs(count, max, share);
    Clamped(share);
    if 1.0 <= share < 100.0 {
      FloorIs(share, count * 100, max);
    }
  }

  lemma ScoreIs(round: real -> real, count: nat, max: int, share: real)
    requires max > 0 && (forall x :: round(x) == x) && share == count as real / max as real * 100.0
    ensures Score(round, count, max) == if count == 1 then 0 else Clamp(share)
  {}

  function Clamp(share: real): int {
    var raised := if share < 1.0 then 1.0 else share;
    (if raised > 100.0 then 100.0 else raised).Floor
  }

  lemma Clamped(share: real)
    ensures Clamp(share) == if share < 1.0 then 1 else if share >= 100.0 then 100 else share.Floor
  {}

  /** The share in per cent, without dividing. */
  lemma ShareTimes(count: nat, max: int, share: real)
    requires max > 0 && share == count as real / max as real * 100.0
    ensures share * max as real == (count * 100) as real
  {
    var q := Divided(count as real, max as real);
    Product(q, share, max as real, count as real);
  }

  lemma Divided(c: real, s: real) returns (q: real)
    requires s > 0.0
    ensures q == c / s && q * s == c
  {
    q := c / s;
  }

  lemma Product(q: real, share: real, s: real, c: real)
    requires q * s == c && share == q * 100.0
    ensures share * s == c * 100.0
  {
    assert (q * 100.0) * s == (q * s) * 100.0;
  }

  lemma ShareIs(count: nat, max: int, share: real)
    requires max > 0 && share * max as real == (count * 100) as real
    ensures (share < 1.0 <==> count * 100 < max) && (share >= 100.0 <==> count >= max)
  {
    Above(1.0, share, max as real, (count * 100) as real);
    Above(100.0, share, max as real, (count * 100) as real);
  }

  lemma Above(a: real, share: real, s: real, x: real)
    requires s > 0.0 && share * s == x
    ensures a <= share <==> a * s <= x
  {
    var d := share - a;
    assert d * s == x - a * s;
    assert d >= 0.0 <==> d * s >= 0.0;
  }

  lemma FloorIs(q: real, n: nat, max: int)
    requires max > 0 && q * max as real == n as real
    ensures q.Floor * max <= n < q.Floor * max + max
  {
    var d := q.Floor;
    var low, high := d as real, (d + 1) as real;
    assert low <= q < high;
    Times(d, max, max as real);
    Times(d + 1, max, max as real);
    Above(low, q, max as real, n as real);
    Above(high, q, max as real, n as real);
    assert (d + 1) * max == d * max + max;
  }

  lemma Times(d: int, max: int, s: real)
    requires s == max as real
    ensures d as real * s == (d * max) as real
  {}

  /** A window scores 100 if and only if it has the fatiguing count, unless it has one alert. */
  lemma FullScoreIff(round: real -> real, count: nat, max: int)
    requires max > 0 && forall x :: round(x) == x
    ensures Score(round, count, max) == 100 <==> count >= max && count != 1
  {
    ExactScore(round, count, max);
    hide Score;
    var score := Score(round, count, max);
    assert score == 100 ==> score * max == 100 * max;
  }

  lemma {:induction false} StartIs(first: int, size: int, k: nat)
    ensures Start(first, size, k) == first + k * size
  {
    if k > 0 {
      StartIs(first, size, k - 1);
      assert (k - 1) * size + size == k * size;
    }
  }

  lemma {:induction false} CountIs(ts: seq<int>, from: int, to: int, inside: int -> bool)
    requires forall t :: inside(t) <==> from <= t < to
    ensures CountIn(ts, from, to) == |Selections.Filter(ts, inside)|
  {
    if ts != [] {
      var n := |ts| - 1;
      CountIs(ts[..n], from, to, inside);
      assert ts == ts[..n] + [ts[n]];
      Selections.FilterConcat(ts[..n], [ts[n]], inside);
      assert [ts[n]][1..] == [];
    }
  }
}
