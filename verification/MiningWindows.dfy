// The sliding windows of alert correlation, and the checkpoint between runs
// (ee/experimental/incident_utils.py, mine_incidents_and_create_objects).
// Times are seconds as real numbers.
module MiningWindows {
  import opened Wrappers

  const STRIDE_DENOMINATOR: int := 4

  datatype Window = Window(start: real, end: real)

  predicate Inside(t: real, w: Window) {
    w.start <= t <= w.end
  }

  /** `math.ceil` */
  function Ceil(x: real): (n: int)
    ensures n as real - 1.0 < x <= n as real
  {
    -((-x).Floor)
  }

  /** `alert_validity_threshold // STRIDE_DENOMINATOR` */
  function Stride(threshold: int): int {
    threshold / STRIDE_DENOMINATOR
  }

  /** The number of batches of a run; it may be zero or negative. */
  function Batches(lower: real, upper: real, stride: int): int
    requires stride != 0
  {
    Ceil((upper - lower) / stride as real) - (STRIDE_DENOMINATOR - 1)
  }

  /** Where batch `b` starts. */
  function Batch(lower: real, stride: int, b: int): real {
    lower + b as real * stride as real
  }

  /** One window per batch, each a stride after the one before. */
  function Windows(lower: real, stride: int, threshold: int, n: int): (ws: seq<Window>)
    ensures |ws| == if n < 0 then 0 else n
  {
    seq(if n < 0 then 0 else n, b => Window(Batch(lower, stride, b), Batch(lower, stride, b) + threshold as real))
  }

  /** What the tenant's configuration keeps: where the last batch started. `covered`
      and `first` only record what was processed, and from where. */
  datatype Progress = Progress(checkpoint: Option<real>, first: Option<real>, covered: seq<Window>)

  /** One run: its upper bound, the lower bound its caller gives it if any, the times of
      the alerts the query returns, and whether it gives up or breaks off before the
      checkpoint is saved. */
  datatype Run = Run(upper: real, given: Option<real>, times: seq<real>, abandoned: bool)

  function Least(times: seq<real>): (m: real)
    requires times != []
    ensures m in times && forall k :: 0 <= k < |times| ==> m <= times[k]
  {
    if |times| == 1 then times[0]
    else
      var rest := Least(times[1..]);
      if times[0] <= rest then times[0] else rest
  }

  /** Where a run starts: where its caller says, or at the checkpoint, or at the first
      alert. None is the error of taking the minimum of no alerts. */
  function LowerBound(p: Progress, r: Run): Option<real> {
    if r.given.Some? then r.given
    else if p.checkpoint.Some? then p.checkpoint
    else if r.times == [] then None
    else Some(Least(r.times))
  }

  /** A run that is abandoned, has no lower bound, or divides by a zero stride changes
      nothing; any other one processes its windows and moves the checkpoint to the start
      of its last batch, even when it has none. */
  function AfterRun(p: Progress, r: Run, threshold: int): Progress {
    var lower := LowerBound(p, r);
    var stride := Stride(threshold);
    if r.abandoned || lower.None? || stride == 0 then p
    else
      var n := Batches(lower.value, r.upper, stride);
      Progress(Some(Batch(lower.value, stride, n - 1)),
               if p.first.Some? then p.first else lower,
               p.covered + Windows(lower.value, stride, threshold, n))
  }

  function AfterRuns(p: Progress, runs: seq<Run>, threshold: int): Progress
    decreases runs
  {
    if runs == [] then p else AfterRuns(AfterRun(p, runs[0], threshold), runs[1..], threshold)
  }

  // ---- Coverage ----

  ghost predicate Covered(ws: seq<Window>, t: real) {
    exists k :: 0 <= k < |ws| && Inside(t, ws[k])
  }

  /** Every time from the first run's lower bound up to the checkpoint was in some
      window. Before the first run there is nothing to cover, whatever is stored. */
  ghost predicate CoveredSoFar(p: Progress) {
    p.first.Some? ==>
      p.checkpoint.Some? && forall t :: p.first.value <= t <= p.checkpoint.value ==> Covered(p.covered, t)
  }

  /** A batch's index for a time: the number of whole strides since the lower bound. */
  lemma TimeHasWindow(lower: real, stride: int, threshold: int, n: int, t: real)
    requires stride > 0 && threshold >= STRIDE_DENOMINATOR * stride
    requires lower <= t <= Batch(lower, stride, n - 1)
    ensures Covered(Windows(lower, stride, threshold, n), t)
  {
    var s := stride as real;
    var d := t - lower;
    var b := (d / s).Floor;
    var low, high := b as real, (b + 1) as real;
    assert low <= d / s < high && (d / s) * s == d;
    ScaleBounds(low, d / s, high, s, d);
    IndexBounds(low, high, b, n - 1, d, s);
    assert low * s + 4.0 * s >= high * s;
    assert Inside(t, Windows(lower, stride, threshold, n)[b]);
  }

  lemma ScaleBounds(a: real, q: real, c: real, s: real, d: real)
    requires s > 0.0 && a <= q < c && q * s == d
    ensures a * s <= d < c * s
  {
    Scale(a, q, s);
    Scale(c, q, s);
  }

  lemma IndexBounds(low: real, high: real, b: int, m: int, d: real, s: real)
    requires s > 0.0 && low == b as real && high == (b + 1) as real
    requires 0.0 <= d <= m as real * s && low * s <= d < high * s
    ensures 0 <= b <= m
  {
    Scale(high, 0.0, s);
    Scale(low, m as real, s);
    Scale(m as real, low, s);
  }

  lemma Scale(a: real, c: real, s: real)
    requires s > 0.0
    ensures a <= c <==> a * s <= c * s
  {
    assert (c - a) * s == c * s - a * s;
  }

  lemma CoveredMore(a: seq<Window>, b: seq<Window>, t: real)
    requires Covered(a, t) || Covered(b, t)
    ensures Covered(a + b, t)
  {
    if Covered(a, t) {
      var k :| 0 <= k < |a| && Inside(t, a[k]);
      assert Inside(t, (a + b)[k]);
    } else {
      var k :| 0 <= k < |b| && Inside(t, b[k]);
      assert Inside(t, (a + b)[|a| + k]);
    }
  }

  /** Windows only cover times from their lower bound on. */
  lemma WindowsAfter(lower: real, stride: int, threshold: int, n: int, t: real)
    requires stride > 0 && Covered(Windows(lower, stride, threshold, n), t)
    ensures lower <= t
  {
    var k :| 0 <= k < n && Inside(t, Windows(lower, stride, threshold, n)[k]);
    Scale(0.0, k as real, stride as real);
  }

  lemma CoveredEither(a: seq<Window>, b: seq<Window>, t: real)
    requires Covered(a + b, t)
    ensures Covered(a, t) || Covered(b, t)
  {
    var k :| 0 <= k < |a + b| && Inside(t, (a + b)[k]);
    if k < |a| {
      assert Inside(t, a[k]);
    } else {
      assert Inside(t, b[k - |a|]);
    }
  }

  /** A run that goes through, starts late and leaves a time before it out for good: from
      the first lower bound on, not covered so far, and behind the new checkpoint. */
  ghost predicate Skips(p: Progress, r: Run, threshold: int) {
    var lower, stride := LowerBound(p, r), Stride(threshold);
    && p.first.Some? && !r.abandoned && lower.Some? && stride != 0
    && exists t :: p.first.value <= t < lower.value && !Covered(p.covered, t)
                   && t <= Batch(lower.value, stride, Batches(lower.value, r.upper, stride) - 1)
  }

  /** A run keeps everything up to the checkpoint covered if and only if it skips nothing. */
  lemma RunCoversIff(p: Progress, r: Run, threshold: int)
    requires CoveredSoFar(p) && threshold >= STRIDE_DENOMINATOR
    ensures CoveredSoFar(AfterRun(p, r, threshold)) <==> !Skips(p, r, threshold)
  {
    hide Batches, Batch, Windows, Covered;
    var p', stride, lower := AfterRun(p, r, threshold), Stride(threshold), LowerBound(p, r);
    if !r.abandoned && lower.Some? {
      var n := Batches(lower.value, r.upper, stride);
      forall t | p'.first.value <= t <= p'.checkpoint.value
        ensures Covered(p'.covered, t) <==> lower.value <= t || Covered(p.covered, t)
      {
        RunCoversAt(p, lower.value, n, threshold, t);
      }
    }
  }

  lemma RunCoversAt(p: Progress, lower: real, n: int, threshold: int, t: real)
    requires threshold >= STRIDE_DENOMINATOR && t <= Batch(lower, Stride(threshold), n - 1)
    ensures Covered(p.covered + Windows(lower, Stride(threshold), threshold, n), t) <==> lower <= t || Covered(p.covered, t)
  {
    hide Batch, Windows, Covered;
    var ws := Windows(lower, Stride(threshold), threshold, n);
    if lower <= t {
      TimeHasWindow(lower, Stride(threshold), threshold, n, t);
    }
    if lower <= t || Covered(p.covered, t) {
      CoveredMore(p.covered, ws, t);
    }
    if Covered(p.covered + ws, t) {
      CoveredEither(p.covered, ws, t);
      if Covered(ws, t) {
        WindowsAfter(lower, Stride(threshold), threshold, n, t);
      }
    }
  }

  /** Nothing is left out at any moment of the runs. */
  ghost predicate CoveredThroughout(p: Progress, runs: seq<Run>, threshold: int)
    decreases runs
  {
    CoveredSoFar(p) && (runs != [] ==> CoveredThroughout(AfterRun(p, runs[0], threshold), runs[1..], threshold))
  }

  ghost predicate SkipsNothing(p: Progress, runs: seq<Run>, threshold: int)
    decreases runs
  {
    runs != [] ==>
      !Skips(p, runs[0], threshold) && SkipsNothing(AfterRun(p, runs[0], threshold), runs[1..], threshold)
  }

  /** Over any sequence of runs, whatever bounds they are given, every time from the first
      lower bound to the current checkpoint is in a processed window all the way if and
      only if no run skips one. */
  lemma {:induction false} RunsCoverIff(p: Progress, runs: seq<Run>, threshold: int)
    requires CoveredSoFar(p) && threshold >= STRIDE_DENOMINATOR
    ensures CoveredThroughout(p, runs, threshold) <==> SkipsNothing(p, runs, threshold)
    decreases runs
  {
    if runs != [] {
      RunCoversIff(p, runs[0], threshold);
      hide CoveredSoFar, Skips, AfterRun;
      if CoveredSoFar(AfterRun(p, runs[0], threshold)) {
        RunsCoverIff(AfterRun(p, runs[0], threshold), runs[1..], threshold);
      }
    }
  }

  /** A run that starts where the last one left off, or before that, skips nothing. */
  lemma StartsInTime(p: Progress, r: Run, threshold: int)
    requires CoveredSoFar(p) && (r.given.None? || (p.checkpoint.Some? && r.given.value <= p.checkpoint.value))
    ensures !Skips(p, r, threshold)
  {}

  /** So over any sequence of runs that start where the last one left off, whatever their
      upper bounds, every time from the first lower bound to the current checkpoint has
      been in a processed window. */
  lemma {:induction false} RunsCover(p: Progress, runs: seq<Run>, threshold: int)
    requires CoveredSoFar(p) && threshold >= STRIDE_DENOMINATOR
    requires forall r :: r in runs ==> r.given.None?
    ensures CoveredSoFar(AfterRuns(p, runs, threshold))
    decreases runs
  {
    if runs != [] {
      assert runs[0] in runs;
      StartsInTime(p, runs[0], threshold);
      RunCoversIff(p, runs[0], threshold);
      hide CoveredSoFar, Skips, AfterRun;
      RunsCover(AfterRun(p, runs[0], threshold), runs[1..], threshold);
    }
  }

  /** A first run over two and a half hours, and a call from ten hours on to twenty: the
      time after five hours was in no window and is behind the checkpoint. */
  lemma LateCallSkips()
    ensures var none, first, call := Progress(None, None, []), Run(9000.0, None, [0.0], false),
                                     Run(72000.0, Some(36000.0), [], false);
            var p := AfterRuns(none, [first], 3600);
            CoveredSoFar(none) && CoveredSoFar(p) && Skips(p, call, 3600)
  {
    var none, first, call := Progress(None, None, []), Run(9000.0, None, [0.0], false), Run(72000.0, Some(36000.0), [], false);
    var p := AfterRun(none, first, 3600);
    assert AfterRuns(none, [first], 3600) == p by {
      assert [first][1..] == [];
    }
    RunsCover(none, [first], 3600);
    assert Batches(0.0, 9000.0, 900) == 7 && Batches(36000.0, 72000.0, 900) == 37;
    assert p.first == Some(0.0) && p.covered == [] + Windows(0.0, 900, 3600, 7);
    assert forall k :: 0 <= k < 7 ==> Windows(0.0, 900, 3600, 7)[k].end <= 9000.0;
    assert !Covered(p.covered, 18000.0);
    assert LowerBound(p, call) == Some(36000.0) && Batch(36000.0, 900, 36) == 68400.0;
    assert p.first.value <= 18000.0 < 36000.0;
  }

  /** The windows of `n` batches cover the time from the lower bound to the end of the last
      one, and nothing else. */
  lemma WindowsIff(lower: real, stride: int, threshold: int, n: int, t: real)
    requires stride > 0 && threshold >= 4 * stride
    ensures Covered(Windows(lower, stride, threshold, n), t)
       <==> n >= 1 && lower <= t <= lower + (n - 1) as real * stride as real + threshold as real
  {
    if Covered(Windows(lower, stride, threshold, n), t) {
      WindowsAfter(lower, stride, threshold, n, t);
      WindowsBefore(lower, stride, threshold, n, t);
    } else if n >= 1 && lower <= t <= lower + (n - 1) as real * stride as real + threshold as real {
      hide Windows, Covered;
      if t <= Batch(lower, stride, n - 1) {
        TimeHasWindow(lower, stride, threshold, n, t);
      } else {
        LastWindow(lower, stride, threshold, n, t);
      }
    }
  }

  lemma WindowsBefore(lower: real, stride: int, threshold: int, n: int, t: real)
    requires stride > 0 && Covered(Windows(lower, stride, threshold, n), t)
    ensures n >= 1 && t <= lower + (n - 1) as real * stride as real + threshold as real
  {
    var k :| 0 <= k < n && Inside(t, Windows(lower, stride, threshold, n)[k]);
    var at := EndOf(lower, stride, threshold, n, k);
    assert t <= lower + at + threshold as real;
    hide *;
    Later(k, n, stride as real, at);
  }

  /** How long after the lower bound window `k` starts. */
  lemma EndOf(lower: real, stride: int, threshold: int, n: int, k: int) returns (at: real)
    requires 0 <= k < n
    ensures at == k as real * stride as real
    ensures Windows(lower, stride, threshold, n)[k].end == lower + at + threshold as real
  {
    at := k as real * stride as real;
  }

  lemma Later(k: int, n: int, s: real, at: real)
    requires 0 <= k < n && s > 0.0 && at == k as real * s
    ensures at <= (n - 1) as real * s
  {
    Scale(k as real, (n - 1) as real, s);
  }

  lemma LastWindow(lower: real, stride: int, threshold: int, n: int, t: real)
    requires n >= 1 && Batch(lower, stride, n - 1) <= t <= Batch(lower, stride, n - 1) + threshold as real
    ensures Covered(Windows(lower, stride, threshold, n), t)
  {
    assert Inside(t, Windows(lower, stride, threshold, n)[n - 1]);
  }

  /** The windows of a run with at least one batch reach its upper bound, and not as far as a
      stride and the four seconds that dividing the threshold can lose beyond it. */
  lemma WindowsReach(lower: real, upper: real, threshold: int)
    requires threshold >= 4 && Batches(lower, upper, threshold / 4) >= 1
    ensures var n, s := Batches(lower, upper, threshold / 4), (threshold / 4) as real;
            var ws := Windows(lower, threshold / 4, threshold, n);
            && (forall t :: lower <= t <= upper ==> Covered(ws, t))
            && (forall t :: t >= upper + s + 4.0 ==> !Covered(ws, t))
  {
    var stride := threshold / 4;
    var n, s := Batches(lower, upper, stride), stride as real;
    LastBatch(lower, upper, stride);
    assert Batch(lower, stride, n - 1) == lower + (n - 1) as real * s;
    assert 4.0 * s <= threshold as real < 4.0 * s + 4.0;
    hide Windows, Covered, Batches;
    forall t ensures Covered(Windows(lower, stride, threshold, n), t)
                <==> lower <= t <= lower + (n - 1) as real * s + threshold as real {
      WindowsIff(lower, stride, threshold, n, t);
    }
  }

  /** A run with at least one batch covers everything from its lower to its upper bound. */
  lemma RunCoversToUpper(lower: real, upper: real, threshold: int, t: real)
    requires threshold >= STRIDE_DENOMINATOR && Batches(lower, upper, Stride(threshold)) >= 1
    requires lower <= t <= upper
    ensures Covered(Windows(lower, Stride(threshold), threshold, Batches(lower, upper, Stride(threshold))), t)
  {
    var stride := Stride(threshold);
    var s, n := stride as real, Batches(lower, upper, stride);
    var ws := Windows(lower, stride, threshold, n);
    if t <= Batch(lower, stride, n - 1) {
      TimeHasWindow(lower, stride, threshold, n, t);
    } else {
      var q := (upper - lower) / s;
      assert q * s == upper - lower && q <= (n + 3) as real;
      assert q * s <= (n + 3) as real * s;
      assert (n + 3) as real * s == (n - 1) as real * s + 4.0 * s;
      assert 4.0 * s <= threshold as real;
      assert Inside(t, ws[n - 1]);
    }
  }

  /** Which way the stored checkpoint lies from where the run started: after it exactly
      when more than four strides are between the run's bounds, before it exactly when at
      most three are. */
  lemma CheckpointMoves(p: Progress, r: Run, threshold: int)
    requires threshold >= STRIDE_DENOMINATOR && !r.abandoned && LowerBound(p, r).Some?
    ensures var lower, s := LowerBound(p, r).value, Stride(threshold) as real;
            var stored := AfterRun(p, r, threshold).checkpoint.value;
            && (stored > lower <==> r.upper - lower > 4.0 * s)
            && (stored < lower <==> r.upper - lower <= 3.0 * s)
  {
    var stride, lower := Stride(threshold), LowerBound(p, r).value;
    assert AfterRun(p, r, threshold).checkpoint.value == Batch(lower, stride, Batches(lower, r.upper, stride) - 1);
    hide *;
    BatchCount(lower, r.upper, stride);
    BatchMoves(lower, stride, Batches(lower, r.upper, stride));
  }

  /** Wherever it started, a run stores a checkpoint between three and four strides before
      its upper bound. */
  lemma CheckpointBehindUpper(p: Progress, r: Run, threshold: int)
    requires threshold >= STRIDE_DENOMINATOR && !r.abandoned && LowerBound(p, r).Some?
    ensures var s, stored := Stride(threshold) as real, AfterRun(p, r, threshold).checkpoint.value;
            r.upper - 4.0 * s <= stored < r.upper - 3.0 * s
  {
    var stride, lower := Stride(threshold), LowerBound(p, r).value;
    assert AfterRun(p, r, threshold).checkpoint.value == Batch(lower, stride, Batches(lower, r.upper, stride) - 1);
    hide *;
    LastBatch(lower, r.upper, stride);
  }

  lemma LastBatch(lower: real, upper: real, stride: int)
    requires stride > 0
    ensures var last := Batch(lower, stride, Batches(lower, upper, stride) - 1);
            upper - 4.0 * stride as real <= last < upper - 3.0 * stride as real
  {
    var n := Batches(lower, upper, stride);
    var q := Strides(lower, upper, stride);
    assert Batch(lower, stride, n - 1) == lower + (n - 1) as real * stride as real;
    hide *;
    var span, to := q * stride as real, (n - 1) as real * stride as real;
    CeilBounds(q, (n - 1) as real, stride as real, span, to);
    Moved(lower, upper, span, to, stride as real);
  }

  lemma Moved(lower: real, upper: real, span: real, to: real, s: real)
    requires span == upper - lower && span - 4.0 * s <= to < span - 3.0 * s
    ensures upper - 4.0 * s <= lower + to < upper - 3.0 * s
  {}

  /** How many strides are between the bounds, and the index of the last batch. */
  lemma Strides(lower: real, upper: real, stride: int) returns (q: real)
    requires stride > 0
    ensures q * stride as real == upper - lower && q - 4.0 <= (Batches(lower, upper, stride) - 1) as real < q - 3.0
  {
    q := (upper - lower) / stride as real;
  }

  lemma CeilBounds(q: real, m: real, s: real, span: real, to: real)
    requires s > 0.0 && q - 4.0 <= m < q - 3.0 && span == q * s && to == m * s
    ensures span - 4.0 * s <= to < span - 3.0 * s
  {
    Less(q, 4.0, s, span, 4.0 * s);
    Less(q, 3.0, s, span, 3.0 * s);
    ScaledOrder(q - 4.0, m, s, span - 4.0 * s, to);
    ScaledOrder(q - 3.0, m, s, span - 3.0 * s, to);
  }

  lemma Less(q: real, k: real, s: real, span: real, less: real)
    requires span == q * s && less == k * s
    ensures (q - k) * s == span - less
  {}

  lemma ScaledOrder(a: real, c: real, s: real, x: real, z: real)
    requires s > 0.0 && x == a * s && z == c * s
    ensures a <= c <==> x <= z
  {
    Scale(a, c, s);
  }

  /** The runs end one after the other, none before `from`. */
  predicate InClockOrder(runs: seq<Run>, from: real)
    decreases runs
  {
    runs != [] ==> from <= runs[0].upper && InClockOrder(runs[1..], runs[0].upper)
  }

  /** No run without a lower bound of its own lowers the checkpoint, and no run at all
      lowers it by as much as a stride. */
  ghost predicate HoldsCheckpoint(p: Progress, runs: seq<Run>, threshold: int)
    decreases runs
  {
    runs != [] ==>
      var p', s := AfterRun(p, runs[0], threshold), Stride(threshold) as real;
      && (p.checkpoint.Some? ==> p'.checkpoint.Some? && p'.checkpoint.value > p.checkpoint.value - s)
      && (p.checkpoint.Some? && runs[0].given.None? ==> p'.checkpoint.value >= p.checkpoint.value)
      && HoldsCheckpoint(p', runs[1..], threshold)
  }

  /** What was stored lies more than three strides behind. */
  predicate StoredBefore(p: Progress, upper: real, threshold: int) {
    p.checkpoint.Some? ==> p.checkpoint.value < upper - 3.0 * Stride(threshold) as real
  }

  /** For runs in the order of the clock, whatever bounds they are given and whether they go
      through or not, the checkpoint never falls, once stored, but for a call with a lower
      bound of its own, and then by less than a stride. */
  lemma {:induction false} CheckpointHolds(p: Progress, runs: seq<Run>, upper: real, threshold: int)
    requires threshold >= STRIDE_DENOMINATOR && StoredBefore(p, upper, threshold) && InClockOrder(runs, upper)
    ensures HoldsCheckpoint(p, runs, threshold)
    decreases runs
  {
    if runs != [] {
      OneHolds(p, runs[0], upper, threshold);
      hide AfterRun, StoredBefore;
      CheckpointHolds(AfterRun(p, runs[0], threshold), runs[1..], runs[0].upper, threshold);
    }
  }

  lemma OneHolds(p: Progress, r: Run, upper: real, threshold: int)
    requires threshold >= STRIDE_DENOMINATOR && StoredBefore(p, upper, threshold) && upper <= r.upper
    ensures var p', s := AfterRun(p, r, threshold), Stride(threshold) as real;
            && StoredBefore(p', r.upper, threshold)
            && (p.checkpoint.Some? ==> p'.checkpoint.Some? && p'.checkpoint.value > p.checkpoint.value - s)
            && (p.checkpoint.Some? && r.given.None? ==> p'.checkpoint.value >= p.checkpoint.value)
  {
    if !r.abandoned && LowerBound(p, r).Some? {
      CheckpointBehindUpper(p, r, threshold);
      CheckpointMoves(p, r, threshold);
    }
    hide Batches, Batch;
  }

  /** From nothing stored: for runs in the order of the clock the checkpoint holds. */
  lemma CheckpointHoldsFromStart(runs: seq<Run>, threshold: int)
    requires threshold >= STRIDE_DENOMINATOR && runs != [] && InClockOrder(runs, runs[0].upper)
    ensures HoldsCheckpoint(Progress(None, None, []), runs, threshold)
  {
    CheckpointHolds(Progress(None, None, []), runs, runs[0].upper, threshold);
  }

  /** A first run with half an hour of alerts and windows of an hour stores a checkpoint
      half an hour before its first alert. */
  lemma FirstCheckpointIsEarly()
    ensures var none, first := Progress(None, None, []), Run(1800.0, None, [0.0], false);
            LowerBound(none, first) == Some(0.0) && AfterRun(none, first, 3600).checkpoint == Some(-1800.0)
  {
    assert Batches(0.0, 1800.0, 900) == -1;
  }

  /** With windows of an hour, a run up to two and a half hours stores an hour and a half; a
      call that ends earlier, at an hour and three quarters, stores three quarters of an
      hour, and the third run starts there. */
  lemma EarlierCallMovesBack()
    ensures var none, first, call, third := Progress(None, None, []), Run(9000.0, None, [0.0], false),
                                            Run(6300.0, None, [], false), Run(9000.0, None, [], false);
            && LowerBound(AfterRuns(none, [first], 3600), call) == Some(5400.0)
            && LowerBound(AfterRuns(none, [first, call], 3600), third) == Some(2700.0)
  {
    var none, first, call := Progress(None, None, []), Run(9000.0, None, [0.0], false), Run(6300.0, None, [], false);
    var p := AfterRun(none, first, 3600);
    assert Batches(0.0, 9000.0, 900) == 7;
    assert p.checkpoint == Some(5400.0);
    assert Batches(5400.0, 6300.0, 900) == -2;
    assert AfterRun(p, call, 3600).checkpoint == Some(2700.0);
    hide AfterRun;
    assert AfterRuns(p, [call], 3600) == AfterRun(p, call, 3600) by {
      assert [call][1..] == [];
    }
    assert [first][1..] == [] && [first, call][1..] == [call];
  }

  lemma BatchCount(lower: real, upper: real, stride: int)
    requires stride > 0
    ensures Batches(lower, upper, stride) >= 2 <==> upper - lower > 4.0 * stride as real
    ensures Batches(lower, upper, stride) <= 0 <==> upper - lower <= 3.0 * stride as real
  {
    Divided(upper - lower, stride as real, 4.0);
    Divided(upper - lower, stride as real, 3.0);
  }

  lemma Divided(d: real, s: real, k: real)
    requires s > 0.0
    ensures d / s <= k <==> d <= k * s
  {
    var q := d / s;
    assert q * s == d;
    hide *;
    Scale(q, k, s);
  }

  lemma BatchMoves(lower: real, stride: int, n: int)
    requires stride > 0
    ensures Batch(lower, stride, n - 1) > lower <==> n >= 2
    ensures Batch(lower, stride, n - 1) < lower <==> n <= 0
  {
    Scale((n - 1) as real, 0.0, stride as real);
    Scale(0.0, (n - 1) as real, stride as real);
  }

  // ---- Slices ----

  predicate Sorted(ts: seq<real>) {
    forall i, j :: 0 <= i <= j < |ts| ==> ts[i] <= ts[j]
  }

  /** `np.searchsorted(ts, x, side='left')` by bisection between `lo` and `hi`. */
  function SearchLeft(ts: seq<real>, x: real, lo: nat, hi: nat): (k: nat)
    requires lo <= hi <= |ts|
    ensures lo <= k <= hi
    decreases hi - lo
  {
    if lo == hi then lo
    else
      var mid := (lo + hi) / 2;
      if ts[mid] < x then SearchLeft(ts, x, mid + 1, hi) else SearchLeft(ts, x, lo, mid)
  }

  /** `np.searchsorted(ts, x, side='right')` */
  function SearchRight(ts: seq<real>, x: real, lo: nat, hi: nat): (k: nat)
    requires lo <= hi <= |ts|
    ensures lo <= k <= hi
    decreases hi - lo
  {
    if lo == hi then lo
    else
      var mid := (lo + hi) / 2;
      if ts[mid] <= x then SearchRight(ts, x, mid + 1, hi) else SearchRight(ts, x, lo, mid)
  }

  lemma {:induction false} SearchLeftSplits(ts: seq<real>, x: real, lo: nat, hi: nat)
    requires lo <= hi <= |ts| && Sorted(ts)
    ensures forall i :: lo <= i < hi ==> (i < SearchLeft(ts, x, lo, hi) <==> ts[i] < x)
    decreases hi - lo
  {
    if lo < hi {
      var mid := (lo + hi) / 2;
      if ts[mid] < x {
        SearchLeftSplits(ts, x, mid + 1, hi);
      } else {
        SearchLeftSplits(ts, x, lo, mid);
      }
    }
  }

  lemma {:induction false} SearchRightSplits(ts: seq<real>, x: real, lo: nat, hi: nat)
    requires lo <= hi <= |ts| && Sorted(ts)
    ensures forall i :: lo <= i < hi ==> (i < SearchRight(ts, x, lo, hi) <==> ts[i] <= x)
    decreases hi - lo
  {
    if lo < hi {
      var mid := (lo + hi) / 2;
      if ts[mid] <= x {
        SearchRightSplits(ts, x, mid + 1, hi);
      } else {
        SearchRightSplits(ts, x, lo, mid);
      }
    }
  }

  /** The two searches cut out exactly the alerts of the closed window: an alert is in
      the slice if and only if its time is in the window. */
  lemma SliceIsWindow(ts: seq<real>, w: Window)
    requires Sorted(ts) && w.start <= w.end
    ensures var from, to := SearchLeft(ts, w.start, 0, |ts|), SearchRight(ts, w.end, 0, |ts|);
            from <= to && forall i :: 0 <= i < |ts| ==> (from <= i < to <==> Inside(ts[i], w))
  {
    SearchLeftSplits(ts, w.start, 0, |ts|);
    SearchRightSplits(ts, w.end, 0, |ts|);
    var from, to := SearchLeft(ts, w.start, 0, |ts|), SearchRight(ts, w.end, 0, |ts|);
    assert to < |ts| ==> !(ts[to] < w.start);
  }
}
