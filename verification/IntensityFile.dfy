/**
  Reading an intensity file whose time axis has gaps: the map from file samples to logical samples, and the weighted
  mean of the polarizations over a window of logical time.
*/
module IntensityFiles {
  import opened BitMatrix

  const MAX_GAP := 1000000
  const MAX_LOGICAL := 100000000

  // ------------------------------------------------------------------------------------------------
  // The time axis

  datatype Outcome = TimesOk(dtP: real, map_: seq<nat>, ntLogical: nat, dtSample: real)
                   | TooFew | NotIncreasing | LargeGap | ImpossibleStep | NoCommonStep | TooGappy

  function Gap(times: seq<real>, i: nat): real
    requires 0 < i < |times|
  {
    times[i] - times[i - 1]
  }

  predicate SmallestGap(times: seq<real>, dt: real) {
    && (forall i :: 0 < i < |times| ==> Gap(times, i) >= dt)
    && exists i :: 0 < i < |times| && Gap(times, i) == dt
  }

  predicate Increasing(times: seq<real>) {
    forall i :: 0 < i < |times| ==> Gap(times, i) > 0.0
  }

  /** A gap is n steps, to within a hundredth of a step. */
  predicate Steps(gap: real, dt: real, n: int) {
    -0.01 * dt <= gap - n as real * dt <= 0.01 * dt
  }

  /** Rounded to the nearest integer, for a positive quotient. */
  function NearestSteps(gap: real, dt: real): int
    requires dt > 0.0
  {
    (gap / dt + 0.5).Floor
  }

  lemma QuotientTimes(gap: real, dt: real)
    requires dt > 0.0
    ensures (gap / dt) * dt == gap
  {
  }

  lemma FloorIs(x: real, n: int)
    requires n as real <= x < n as real + 1.0
    ensures x.Floor == n
  {
  }

  lemma Distributes(x: real, y: real, dt: real)
    ensures (x + y) * dt == x * dt + y * dt
  {
  }

  lemma ScaledOrder(x: real, y: real, dt: real)
    requires dt > 0.0
    ensures x <= y <==> x * dt <= y * dt
  {
    if x <= y { assert (y - x) * dt >= 0.0; } else { assert (x - y) * dt > 0.0; }
    assert (y - x) * dt == y * dt - x * dt;
  }

  lemma DivideOrder(x: real, y: real, dt: real, a: real, b: real)
    requires dt > 0.0 && x * dt == a && y * dt == b
    ensures x <= y <==> a <= b
  {
    ScaledOrder(x, y, dt);
  }

  /** The tests on the number of steps never fail: it is at least one, and at most a million. */
  lemma StepIsPossible(gap: real, dt: real)
    requires 0.0 < dt <= gap && gap <= MAX_GAP as real * dt
    ensures 1 <= NearestSteps(gap, dt) <= MAX_GAP
  {
    var q := gap / dt;
    QuotientTimes(gap, dt);
    ScaledOrder(1.0, q, dt);
    ScaledOrder(q, MAX_GAP as real, dt);
  }

  /** If a gap is close to any whole number of steps, it is close to the nearest one, and to no other. */
  lemma NearestIsUnique(gap: real, dt: real, n: int)
    requires dt > 0.0 && Steps(gap, dt, n)
    ensures n == NearestSteps(gap, dt)
  {
    var q, r := gap / dt, n as real;
    QuotientTimes(gap, dt);
    var hi, lo, p := r + 0.01, r - 0.01, r * dt;
    Distributes(r, 0.01, dt);
    Distributes(r, -0.01, dt);
    assert gap - p <= 0.01 * dt && -0.01 * dt <= gap - p;
    assert hi * dt == p + 0.01 * dt && lo * dt == p - 0.01 * dt;
    DivideOrder(q, hi, dt, gap, p + 0.01 * dt);
    DivideOrder(lo, q, dt, p - 0.01 * dt, gap);
    FloorIs(q + 0.5, n);
  }

  /** A consistent map, as far as n: it starts at zero and follows the gaps. */
  predicate Maps(times: seq<real>, dt: real, m: seq<nat>, n: nat) {
    && n <= |m| && n <= |times| && (n > 0 ==> m[0] == 0)
    && forall i :: 0 < i < n ==> m[i] > m[i - 1] && m[i] <= MAX_LOGICAL && Steps(Gap(times, i), dt, m[i] - m[i - 1])
  }

  /** The times leave no choice: there is at most one such map. */
  lemma {:induction false} OneMap(times: seq<real>, dt: real, m: seq<nat>, m': seq<nat>, n: nat)
    requires dt > 0.0 && Maps(times, dt, m, n) && Maps(times, dt, m', n)
    ensures m[..n] == m'[..n]
  {
    if n > 0 {
      OneMap(times, dt, m, m', n - 1);
      if n > 1 {
        assert m[..n - 1][n - 2] == m'[..n - 1][n - 2];
        NearestIsUnique(Gap(times, n - 1), dt, m[n - 1] - m[n - 2]);
        NearestIsUnique(Gap(times, n - 1), dt, m'[n - 1] - m'[n - 2]);
      }
      assert m[..n] == m[..n - 1] + [m[n - 1]] && m'[..n] == m'[..n - 1] + [m'[n - 1]];
    }
  }

  /** Every gap is a whole number of steps of the smallest one, and not too many. */
  predicate Regular(times: seq<real>, dt: real) {
    forall i :: 0 < i < |times| ==> Gap(times, i) <= MAX_GAP as real * dt && WholeSteps(Gap(times, i), dt)
  }

  predicate WholeSteps(gap: real, dt: real) {
    dt > 0.0 && Steps(gap, dt, NearestSteps(gap, dt))
  }

  function LogicalIndex(times: seq<real>, dt: real, i: nat): int
    requires dt > 0.0 && i < |times|
  {
    if i == 0 then 0 else LogicalIndex(times, dt, i - 1) + NearestSteps(Gap(times, i), dt)
  }

  /** Times that can be read: increasing, in whole steps of the smallest gap, and not too gappy. */
  predicate Readable(times: seq<real>, dt: real) {
    && |times| >= 2 && Increasing(times) && SmallestGap(times, dt) && Regular(times, dt) && dt > 0.0
    && forall i :: 0 < i < |times| ==> LogicalIndex(times, dt, i) <= MAX_LOGICAL
  }

  /** The map as far as n, with all tests passed. */
  predicate MapSoFar(times: seq<real>, dt: real, m: seq<nat>, n: nat)
    requires dt > 0.0
  {
    && 0 < n <= |times| && |m| == n && m[0] == 0
    && (forall i :: 0 < i < n ==> Gap(times, i) <= MAX_GAP as real * dt && WholeSteps(Gap(times, i), dt))
    && (forall i :: 0 <= i < n ==> m[i] == LogicalIndex(times, dt, i) && m[i] <= MAX_LOGICAL)
  }

  lemma MapNext(times: seq<real>, dt: real, m: seq<nat>, n: nat)
    requires dt > 0.0 && MapSoFar(times, dt, m, n) && n < |times| && 0.0 < dt <= Gap(times, n) <= MAX_GAP as real * dt
    ensures 1 <= NearestSteps(Gap(times, n), dt) <= MAX_GAP
    ensures var next := m[n - 1] + NearestSteps(Gap(times, n), dt);
            && next == LogicalIndex(times, dt, n)
            && (WholeSteps(Gap(times, n), dt) && next <= MAX_LOGICAL ==> MapSoFar(times, dt, m + [next], n + 1))
  {
    hide NearestSteps, WholeSteps;
    StepIsPossible(Gap(times, n), dt);
  }

  lemma MapIsDone(times: seq<real>, dt: real, m: seq<nat>)
    requires dt > 0.0 && MapSoFar(times, dt, m, |times|) && SmallestGap(times, dt)
    ensures Regular(times, dt) && Maps(times, dt, m, |times|)
  {
    hide NearestSteps;
    forall i | 0 < i < |times| ensures m[i] > m[i - 1] && Steps(Gap(times, i), dt, m[i] - m[i - 1]) {
      StepIsPossible(Gap(times, i), dt);
      assert m[i] == LogicalIndex(times, dt, i) && m[i - 1] == LogicalIndex(times, dt, i - 1);
    }
  }

  /** The constructor's work on the time axis; it succeeds exactly for readable times. */
  method InitTimes(times: seq<real>) returns (o: Outcome)
    ensures o.TooFew? <==> |times| < 2
    ensures o.NotIncreasing? <==> |times| >= 2 && !Increasing(times)
    ensures !o.ImpossibleStep?
    ensures o.TimesOk? ==>
              && Readable(times, o.dtP) && |o.map_| == |times| && Maps(times, o.dtP, o.map_, |times|)
              && o.ntLogical == o.map_[|times| - 1] + 1
              && o.dtSample == (times[|times| - 1] + o.dtP - times[0]) / o.ntLogical as real
    ensures forall dt :: Readable(times, dt) ==> o.TimesOk?
  {
    hide NearestSteps, LogicalIndex, MapSoFar, Maps, Steps;
    if |times| < 2 { return TooFew; }
    var dtP := FindSmallestGap(times);
    SmallestIsUnique(times, dtP);
    if dtP <= 0.0 {
      NotAllPositive(times, dtP);
      return NotIncreasing;
    }
    AllPositive(times, dtP);
    var m: seq<nat> := [0];
    MapStarts(times, dtP);
    for i := 1 to |times|
      invariant |m| == i && MapSoFar(times, dtP, m, i)
    {
      var dt := Gap(times, i);
      if dt > MAX_GAP as real * dtP { return LargeGap; }
      MapNext(times, dtP, m, i);
      var nstep := NearestSteps(dt, dtP);
      if nstep < 1 || nstep > MAX_GAP { return ImpossibleStep; }
      var drift := dt - nstep as real * dtP;
      StepsAre(dt, dtP, nstep);
      if drift > 0.01 * dtP || -drift > 0.01 * dtP { return NoCommonStep; }
      var next := m[i - 1] + nstep;
      if next > MAX_LOGICAL { return TooGappy; }
      m := m + [next];
    }
    MapIsDone(times, dtP, m);
    MapIsReadable(times, dtP, m);
    var ntLogical := m[|times| - 1] + 1;
    var timeLo, timeHi := times[0], times[|times| - 1] + dtP;
    o := TimesOk(dtP, m, ntLogical, (timeHi - timeLo) / ntLogical as real);
  }

  /** Gaps of two and three steps are rejected, although they have a step in common: the smallest gap must be a step. */
  lemma CommonStepIsNotEnough()
    ensures var times := [0.0, 2.0, 5.0];
            && Increasing(times) && (forall i :: 0 < i < |times| ==> Steps(Gap(times, i), 1.0, i + 1))
            && forall dt :: !Readable(times, dt)
  {
    var times := [0.0, 2.0, 5.0];
    assert Gap(times, 1) == 2.0 && Gap(times, 2) == 3.0;
    forall dt | SmallestGap(times, dt) ensures !Regular(times, dt) {
      assert dt == 2.0;
      assert NearestSteps(3.0, 2.0) == 2;
      assert !WholeSteps(Gap(times, 2), dt);
    }
  }

  lemma StepsAre(gap: real, dt: real, n: int)
    ensures Steps(gap, dt, n) <==> -0.01 * dt <= gap - n as real * dt <= 0.01 * dt
  {
  }

  lemma MapStarts(times: seq<real>, dt: real)
    requires dt > 0.0 && |times| >= 2
    ensures MapSoFar(times, dt, [0], 1)
  {
  }

  lemma MapIsReadable(times: seq<real>, dt: real, m: seq<nat>)
    requires dt > 0.0 && |times| >= 2 && MapSoFar(times, dt, m, |times|) && SmallestGap(times, dt) && Increasing(times)
    ensures Readable(times, dt)
  {
    hide NearestSteps;
    forall i | 0 < i < |times| ensures LogicalIndex(times, dt, i) <= MAX_LOGICAL {
      assert m[i] == LogicalIndex(times, dt, i);
    }
  }

  lemma NotAllPositive(times: seq<real>, dt: real)
    requires SmallestGap(times, dt) && dt <= 0.0
    ensures !Increasing(times)
  {
    var i :| 0 < i < |times| && Gap(times, i) == dt;
    assert !(Gap(times, i) > 0.0);
  }

  lemma AllPositive(times: seq<real>, dt: real)
    requires SmallestGap(times, dt) && dt > 0.0
    ensures Increasing(times)
  {
  }

  method FindSmallestGap(times: seq<real>) returns (dtP: real)
    requires |times| >= 2
    ensures SmallestGap(times, dtP)
  {
    dtP := times[1] - times[0];
    assert Gap(times, 1) == dtP;
    for i := 2 to |times|
      invariant forall j :: 0 < j < i ==> Gap(times, j) >= dtP
      invariant exists j :: 0 < j < i && Gap(times, j) == dtP
    {
      if times[i] - times[i - 1] < dtP {
        dtP := times[i] - times[i - 1];
        assert Gap(times, i) == dtP;
      }
    }
  }

  lemma SmallestIsUnique(times: seq<real>, dt: real)
    requires SmallestGap(times, dt)
    ensures forall d :: SmallestGap(times, d) ==> d == dt
  {
    var i :| 0 < i < |times| && Gap(times, i) == dt;
    forall d | SmallestGap(times, d) ensures d == dt {
      var j :| 0 < j < |times| && Gap(times, j) == d;
      assert Gap(times, i) >= d && Gap(times, j) >= dt;
    }
  }

  /** The map never runs off: after i file samples the time is that many steps, to within i hundredths of one. */
  lemma {:induction false} DriftIsBounded(times: seq<real>, dt: real, m: seq<nat>, i: nat)
    requires dt > 0.0 && Maps(times, dt, m, |times|) && |m| == |times| && i < |times|
    ensures -0.01 * (i as real * dt) <= times[i] - times[0] - m[i] as real * dt <= 0.01 * (i as real * dt)
  {
    if i > 0 {
      DriftIsBounded(times, dt, m, i - 1);
      assert Steps(Gap(times, i), dt, m[i] - m[i - 1]);
      var a, b := m[i] as real, m[i - 1] as real;
      assert (a - b) * dt == a * dt - b * dt;
      assert i as real * dt == (i - 1) as real * dt + dt;
    }
  }

  lemma {:induction false} MapIncreases(times: seq<real>, dt: real, m: seq<nat>, i: nat, j: nat)
    requires Maps(times, dt, m, |m|) && i < j < |m|
    ensures m[i] < m[j]
  {
    if i < j - 1 { MapIncreases(times, dt, m, i, j - 1); }
    assert m[j] > m[j - 1];
  }

  // ------------------------------------------------------------------------------------------------
  // The contents of a file: (frequency, polarization, file sample), and a map that increases

  datatype Contents = Contents(nfreq: nat, npol: nat, map_: seq<nat>, ntLogical: nat, intensity: seq<real>, weights: seq<real>)

  predicate ValidContents(h: Contents) {
    && |h.intensity| == |h.weights| == At(At(h.nfreq, h.npol, 0), |h.map_|, 0)
    && (forall k :: 0 <= k < |h.weights| ==> h.weights[k] >= 0.0)
    && (forall i, j :: 0 <= i < j < |h.map_| ==> h.map_[i] < h.map_[j])
  }

  function Source(h: Contents, f: nat, pol: nat, it: nat): (k: nat)
    requires ValidContents(h) && f < h.nfreq && pol < h.npol && it < |h.map_|
    ensures k < |h.intensity| == |h.weights|
  {
    AtBound(f, h.nfreq, h.npol, pol);
    AtBound(At(f, h.npol, pol), At(h.nfreq, h.npol, 0), |h.map_|, it);
    At(At(f, h.npol, pol), |h.map_|, it)
  }

  /** Frequency, polarization, file sample, in this order. */
  lemma SourceIsProduct(h: Contents, f: nat, pol: nat, it: nat)
    requires ValidContents(h) && f < h.nfreq && pol < h.npol && it < |h.map_|
    ensures Source(h, f, pol, it) == (f * h.npol + pol) * |h.map_| + it
  {
    AtIsProduct(f, h.npol, pol);
    AtIsProduct(f * h.npol + pol, |h.map_|, it);
  }

  /** Over the first p polarizations of one file sample: weights, or weighted intensities. */
  function PolWeights(h: Contents, f: nat, it: nat, p: nat): (r: real)
    requires ValidContents(h) && f < h.nfreq && it < |h.map_| && p <= h.npol
    ensures r >= 0.0
  {
    if p == 0 then 0.0 else PolWeights(h, f, it, p - 1) + h.weights[Source(h, f, p - 1, it)]
  }

  function PolProducts(h: Contents, f: nat, it: nat, p: nat): real
    requires ValidContents(h) && f < h.nfreq && it < |h.map_| && p <= h.npol
  {
    if p == 0 then 0.0
    else PolProducts(h, f, it, p - 1) + h.intensity[Source(h, f, p - 1, it)] * h.weights[Source(h, f, p - 1, it)]
  }

  /** The file sample of a logical sample, if it is one of the first n. */
  function FileSample(h: Contents, t: nat, n: nat): (it: int)
    requires n <= |h.map_|
    ensures -1 <= it < n && (it >= 0 ==> h.map_[it] == t) && (it < 0 ==> forall i :: 0 <= i < n ==> h.map_[i] != t)
  {
    if n == 0 then -1 else if h.map_[n - 1] == t then n - 1 else FileSample(h, t, n - 1)
  }

  function WeightAt(h: Contents, f: nat, t: nat): real
    requires ValidContents(h) && f < h.nfreq
  {
    var it := FileSample(h, t, |h.map_|);
    if it < 0 then 0.0 else PolWeights(h, f, it, h.npol)
  }

  /** The weighted mean of the polarizations; zero in a gap and where all weights are zero. */
  function IntensityAt(h: Contents, f: nat, t: nat): real
    requires ValidContents(h) && f < h.nfreq
  {
    var it := FileSample(h, t, |h.map_|);
    if it < 0 then 0.0
    else if PolWeights(h, f, it, h.npol) > 0.0 then PolProducts(h, f, it, h.npol) / PolWeights(h, f, it, h.npol)
    else 0.0
  }

  lemma {:induction false} NoWeightNoProduct(h: Contents, f: nat, it: nat, p: nat)
    requires ValidContents(h) && f < h.nfreq && it < |h.map_| && p <= h.npol
    ensures PolWeights(h, f, it, p) == 0.0 <==> forall q :: 0 <= q < p ==> h.weights[Source(h, f, q, it)] == 0.0
    ensures PolWeights(h, f, it, p) == 0.0 ==> PolProducts(h, f, it, p) == 0.0
  {
    if p > 0 {
      NoWeightNoProduct(h, f, it, p - 1);
      assert h.weights[Source(h, f, p - 1, it)] >= 0.0;
    }
  }

  /** A weight of zero means a gap, or no polarization with a weight. */
  lemma ZeroWeights(h: Contents, f: nat, t: nat)
    requires ValidContents(h) && f < h.nfreq
    ensures WeightAt(h, f, t) == 0.0
            <==> t !in h.map_ || forall it, q :: 0 <= it < |h.map_| && h.map_[it] == t && 0 <= q < h.npol ==> h.weights[Source(h, f, q, it)] == 0.0
  {
    hide PolWeights, Source;
    var it := FileSample(h, t, |h.map_|);
    if it >= 0 {
      NoWeightNoProduct(h, f, it, h.npol);
      assert h.map_[it] == t;
      forall i | 0 <= i < |h.map_| && h.map_[i] == t ensures i == it {
      }
    }
  }

  function Total(ws: seq<real>): real {
    if ws == [] then 0.0 else Total(ws[..|ws| - 1]) + ws[|ws| - 1]
  }

  function Weighted(xs: seq<real>, ws: seq<real>): real
    requires |xs| == |ws|
  {
    if ws == [] then 0.0 else Weighted(xs[..|xs| - 1], ws[..|ws| - 1]) + xs[|xs| - 1] * ws[|ws| - 1]
  }

  /** The polarizations of file sample `it` at frequency f, as they lie in the file. */
  predicate Polarizations(h: Contents, f: nat, it: nat, xs: seq<real>, ws: seq<real>)
    requires |h.intensity| == |h.weights|
  {
    && |xs| == |ws| == h.npol
    && forall p :: 0 <= p < h.npol ==> Holds(h, (f * h.npol + p) * |h.map_| + it, xs[p], ws[p])
  }

  predicate Holds(h: Contents, k: int, x: real, w: real)
    requires |h.intensity| == |h.weights|
  {
    0 <= k < |h.weights| && h.intensity[k] == x && h.weights[k] == w
  }

  lemma {:induction false} SumsOfPolarizations(h: Contents, f: nat, it: nat, xs: seq<real>, ws: seq<real>, p: nat)
    requires ValidContents(h) && f < h.nfreq && it < |h.map_| && Polarizations(h, f, it, xs, ws) && p <= h.npol
    ensures PolWeights(h, f, it, p) == Total(ws[..p]) && PolProducts(h, f, it, p) == Weighted(xs[..p], ws[..p])
  {
    hide ValidContents, Source;
    if p > 0 {
      SumsOfPolarizations(h, f, it, xs, ws, p - 1);
      assert ws[..p][..p - 1] == ws[..p - 1] && xs[..p][..p - 1] == xs[..p - 1];
      SourceIsProduct(h, f, p - 1, it);
      assert Holds(h, (f * h.npol + (p - 1)) * |h.map_| + it, xs[p - 1], ws[p - 1]);
    }
  }

  /** At the logical time of a file sample: the sum of its weights, and the mean of its intensities by weight. */
  lemma CellIsMean(h: Contents, f: nat, it: nat, xs: seq<real>, ws: seq<real>)
    requires ValidContents(h) && f < h.nfreq && it < |h.map_| && Polarizations(h, f, it, xs, ws)
    ensures WeightAt(h, f, h.map_[it]) == Total(ws)
    ensures IntensityAt(h, f, h.map_[it]) == if Total(ws) > 0.0 then Weighted(xs, ws) / Total(ws) else 0.0
  {
    assert ws[..h.npol] == ws && xs[..h.npol] == xs;
    SumsOfPolarizations(h, f, it, xs, ws, h.npol);
    hide PolWeights, PolProducts, Polarizations;
    assert FileSample(h, h.map_[it], |h.map_|) == it;
  }

  /** Between file samples there is nothing. */
  lemma GapIsEmpty(h: Contents, f: nat, t: nat)
    requires ValidContents(h) && f < h.nfreq && t !in h.map_
    ensures WeightAt(h, f, t) == 0.0 && IntensityAt(h, f, t) == 0.0
  {
  }

  /** With a single polarization, the intensity itself where it has a weight. */
  lemma OnePolarization(h: Contents, f: nat, it: nat)
    requires ValidContents(h) && f < h.nfreq && it < |h.map_| && h.npol == 1
    ensures 0 <= f * |h.map_| + it < |h.intensity| == |h.weights|
    ensures WeightAt(h, f, h.map_[it]) == h.weights[f * |h.map_| + it]
    ensures h.weights[f * |h.map_| + it] > 0.0 ==> IntensityAt(h, f, h.map_[it]) == h.intensity[f * |h.map_| + it]
  {
    var k := Source(h, f, 0, it);
    SourceIsProduct(h, f, 0, it);
    assert (f * 1 + 0) * |h.map_| + it == f * |h.map_| + it;
    var xs, ws := [h.intensity[k]], [h.weights[k]];
    CellIsMean(h, f, it, xs, ws);
    OneTerm(h.intensity[k], h.weights[k]);
  }

  lemma OneTerm(x: real, w: real)
    ensures Total([w]) == w && Weighted([x], [w]) == x * w && (w > 0.0 ==> (x * w) / w == x)
  {
    assert [w][..0] == [] && [x][..0] == [];
  }

  // ------------------------------------------------------------------------------------------------
  // A window, written with any stride

  /** Where a row of the output starts; the stride may be negative. */
  function RowStart(base: int, stride: int, f: nat): int {
    if f == 0 then base else RowStart(base, stride, f - 1) + stride
  }

  lemma {:induction false} RowStartIsProduct(base: int, stride: int, f: nat)
    ensures RowStart(base, stride, f) == base + f * stride
  {
    if f > 0 {
      RowStartIsProduct(base, stride, f - 1);
      assert f * stride == (f - 1) * stride + stride;
    }
  }

  lemma {:induction false} RowsApart(base: int, stride: int, f: nat, g: nat)
    requires f < g
    ensures stride >= 0 ==> RowStart(base, stride, f) + stride <= RowStart(base, stride, g)
    ensures stride < 0 ==> RowStart(base, stride, g) <= RowStart(base, stride, f) + stride
  {
    if f < g - 1 { RowsApart(base, stride, f, g - 1); }
  }

  function Magnitude(x: int): nat { if x < 0 then -x else x }

  /** Different cells of the output are different positions. */
  lemma CellsApart(base: int, stride: int, nt: nat, f: nat, t: nat, g: nat, s: nat)
    requires Magnitude(stride) >= nt && t < nt && s < nt && (f != g || t != s)
    ensures RowStart(base, stride, f) + t != RowStart(base, stride, g) + s
  {
    if f < g { RowsApart(base, stride, f, g); } else if g < f { RowsApart(base, stride, g, f); }
  }

  /** An output array: all rows of the window are inside. */
  predicate Inside(n: nat, base: int, stride: int, nfreq: nat, nt: nat) {
    forall f :: 0 <= f < nfreq ==> 0 <= RowStart(base, stride, f) && RowStart(base, stride, f) + nt <= n
  }

  /** A window of nt samples from t0 on. */
  datatype Window = Window(t0: nat, nt: nat, intBase: int, intStride: int, wtBase: int, wtStride: int)

  predicate ValidWindow(h: Contents, w: Window, ni: nat, nw: nat) {
    && w.nt > 0 && w.t0 + w.nt <= h.ntLogical
    && Magnitude(w.intStride) >= w.nt && Magnitude(w.wtStride) >= w.nt
    && Inside(ni, w.intBase, w.intStride, h.nfreq, w.nt) && Inside(nw, w.wtBase, w.wtStride, h.nfreq, w.nt)
  }

  /** While file sample n is being added: n samples are in, and polarization p as far as frequency k. */
  function Added(h: Contents, f: nat, t: nat, n: nat, p: nat, k: nat): (int, nat)
    requires n <= |h.map_|
  {
    if n < |h.map_| && h.map_[n] == t then (n, if f < k then p + 1 else p)
    else (FileSample(h, t, n), h.npol)
  }

  function SoFarWeight(h: Contents, f: nat, t: nat, n: nat, p: nat, k: nat): real
    requires ValidContents(h) && f < h.nfreq && n <= |h.map_|
  {
    var (it, q) := Added(h, f, t, n, p, k);
    if it < 0 || q > h.npol then 0.0 else PolWeights(h, f, it, q)
  }

  function SoFarProduct(h: Contents, f: nat, t: nat, n: nat, p: nat, k: nat): real
    requires ValidContents(h) && f < h.nfreq && n <= |h.map_|
  {
    var (it, q) := Added(h, f, t, n, p, k);
    if it < 0 || q > h.npol then 0.0 else PolProducts(h, f, it, q)
  }

  /** Cell (f, t) of the window holds the sums so far. */
  predicate CellHolds(h: Contents, w: Window, outInt: seq<real>, outWt: seq<real>, f: nat, t: nat, n: nat, p: nat, k: nat)
    requires ValidContents(h) && n <= |h.map_|
  {
    && f < h.nfreq
    && var i, j := RowStart(w.intBase, w.intStride, f) + t, RowStart(w.wtBase, w.wtStride, f) + t;
    && 0 <= i < |outInt| && 0 <= j < |outWt|
    && outInt[i] == SoFarProduct(h, f, w.t0 + t, n, p, k) && outWt[j] == SoFarWeight(h, f, w.t0 + t, n, p, k)
  }

  /** Positions that are no cell of the window are untouched. */
  predicate Untouched(base: int, stride: int, nfreq: nat, nt: nat, old_: seq<real>, new_: seq<real>) {
    && |old_| == |new_|
    && forall i :: 0 <= i < |old_| && NoCell(base, stride, nfreq, nt, i) ==> new_[i] == old_[i]
  }

  predicate NoCell(base: int, stride: int, nfreq: nat, nt: nat, i: nat) {
    forall f :: 0 <= f < nfreq ==> !(RowStart(base, stride, f) <= i < RowStart(base, stride, f) + nt)
  }

  predicate WindowHolds(h: Contents, w: Window, i0: seq<real>, w0: seq<real>, outInt: seq<real>, outWt: seq<real>, n: nat, p: nat, k: nat)
    requires ValidContents(h) && n <= |h.map_|
  {
    && (forall f, t :: 0 <= f < h.nfreq && 0 <= t < w.nt ==> CellHolds(h, w, outInt, outWt, f, t, n, p, k))
    && Untouched(w.intBase, w.intStride, h.nfreq, w.nt, i0, outInt) && Untouched(w.wtBase, w.wtStride, h.nfreq, w.nt, w0, outWt)
  }

  lemma CellInside(h: Contents, w: Window, i0: seq<real>, w0: seq<real>, outInt: seq<real>, outWt: seq<real>,
                   n: nat, p: nat, k: nat, f: nat, t: nat)
    requires ValidContents(h) && n <= |h.map_| && WindowHolds(h, w, i0, w0, outInt, outWt, n, p, k) && f < h.nfreq && t < w.nt
    ensures 0 <= RowStart(w.intBase, w.intStride, f) + t < |outInt| && 0 <= RowStart(w.wtBase, w.wtStride, f) + t < |outWt|
  {
    assert CellHolds(h, w, outInt, outWt, f, t, n, p, k);
  }

  /** Only one cell gets the next term. */
  lemma TermSums(h: Contents, f: nat, t: nat, n: nat, p: nat, k: nat)
    requires ValidContents(h) && f < h.nfreq && n < |h.map_| && p < h.npol && k < h.nfreq
    ensures var s := Source(h, f, p, n);
            && SoFarProduct(h, f, t, n, p, k + 1)
               == SoFarProduct(h, f, t, n, p, k) + (if f == k && t == h.map_[n] then h.intensity[s] * h.weights[s] else 0.0)
            && SoFarWeight(h, f, t, n, p, k + 1)
               == SoFarWeight(h, f, t, n, p, k) + (if f == k && t == h.map_[n] then h.weights[s] else 0.0)
  {
    hide Source, ValidContents;
  }

  /** One more term in one cell. */
  lemma TermAdded(h: Contents, w: Window, i0: seq<real>, w0: seq<real>, outInt: seq<real>, outWt: seq<real>,
                  n: nat, p: nat, k: nat, i: nat, j: nat, s: nat)
    requires ValidContents(h) && ValidWindow(h, w, |outInt|, |outWt|)
    requires n < |h.map_| && p < h.npol && k < h.nfreq && w.t0 <= h.map_[n] < w.t0 + w.nt
    requires WindowHolds(h, w, i0, w0, outInt, outWt, n, p, k)
    requires i == RowStart(w.intBase, w.intStride, k) + (h.map_[n] - w.t0) && i < |outInt|
    requires j == RowStart(w.wtBase, w.wtStride, k) + (h.map_[n] - w.t0) && j < |outWt|
    requires s == Source(h, k, p, n)
    ensures WindowHolds(h, w, i0, w0, outInt[i := outInt[i] + h.intensity[s] * h.weights[s]],
                        outWt[j := outWt[j] + h.weights[s]], n, p, k + 1)
  {
    hide Source, RowStart, ValidContents, FileSample, NoCell, SoFarProduct, SoFarWeight;
    var t := h.map_[n] - w.t0;
    var int1, wt1, next := outInt[i := outInt[i] + h.intensity[s] * h.weights[s]], outWt[j := outWt[j] + h.weights[s]], k + 1;
    forall f, t' | 0 <= f < h.nfreq && 0 <= t' < w.nt ensures CellHolds(h, w, int1, wt1, f, t', n, p, next) {
      assert CellHolds(h, w, outInt, outWt, f, t', n, p, k);
      TermSums(h, f, w.t0 + t', n, p, k);
      if f != k || t' != t {
        CellsApart(w.intBase, w.intStride, w.nt, f, t', k, t);
        CellsApart(w.wtBase, w.wtStride, w.nt, f, t', k, t);
      }
    }
    IsCell(w.intBase, w.intStride, h.nfreq, w.nt, k, t);
    IsCell(w.wtBase, w.wtStride, h.nfreq, w.nt, k, t);
  }

  lemma IsCell(base: int, stride: int, nfreq: nat, nt: nat, f: nat, t: nat)
    requires f < nfreq && t < nt && RowStart(base, stride, f) + t >= 0
    ensures !NoCell(base, stride, nfreq, nt, RowStart(base, stride, f) + t)
  {
  }

  /** The sums stay the same while the counters are renamed. */
  lemma Renamed(h: Contents, w: Window, i0: seq<real>, w0: seq<real>, outInt: seq<real>, outWt: seq<real>,
                n: nat, p: nat, k: nat, n': nat, p': nat, k': nat)
    requires ValidContents(h) && n <= |h.map_| && n' <= |h.map_| && WindowHolds(h, w, i0, w0, outInt, outWt, n, p, k)
    requires forall f, t :: 0 <= f < h.nfreq && w.t0 <= t < w.t0 + w.nt ==> SameSums(h, f, t, n, p, k, n', p', k')
    ensures WindowHolds(h, w, i0, w0, outInt, outWt, n', p', k')
  {
    hide ValidContents, RowStart, SoFarProduct, SoFarWeight;
    forall f, t | 0 <= f < h.nfreq && 0 <= t < w.nt ensures CellHolds(h, w, outInt, outWt, f, t, n', p', k') {
      assert CellHolds(h, w, outInt, outWt, f, t, n, p, k);
      assert SameSums(h, f, w.t0 + t, n, p, k, n', p', k');
    }
  }

  predicate SameSums(h: Contents, f: nat, t: nat, n: nat, p: nat, k: nat, n': nat, p': nat, k': nat)
    requires ValidContents(h) && f < h.nfreq && n <= |h.map_| && n' <= |h.map_|
  {
    SoFarProduct(h, f, t, n, p, k) == SoFarProduct(h, f, t, n', p', k') && SoFarWeight(h, f, t, n, p, k) == SoFarWeight(h, f, t, n', p', k')
  }

  /** After the last polarization of a sample, or when the sample is outside the window, the next sample is up. */
  lemma NextSample(h: Contents, f: nat, t: nat, n: nat)
    requires ValidContents(h) && f < h.nfreq && n < |h.map_|
    ensures SameSums(h, f, t, n, h.npol, 0, n + 1, 0, 0)
    ensures t != h.map_[n] ==> SameSums(h, f, t, n, 0, 0, n + 1, 0, 0)
  {
    hide Source;
    if n + 1 < |h.map_| && h.map_[n + 1] == t {
      var it := FileSample(h, t, n);
      assert it < 0;
    }
  }

  /** One file sample of the first pass. */
  method AddFileSample(h: Contents, w: Window, outInt: array<real>, outWt: array<real>, n: nat, ghost i0: seq<real>, ghost w0: seq<real>)
    requires ValidContents(h) && outInt != outWt && ValidWindow(h, w, outInt.Length, outWt.Length) && n < |h.map_|
    requires WindowHolds(h, w, i0, w0, outInt[..], outWt[..], n, 0, 0)
    modifies outInt, outWt
    ensures WindowHolds(h, w, i0, w0, outInt[..], outWt[..], n + 1, 0, 0)
  {
    hide ValidContents, ValidWindow, Source, RowStart, WindowHolds, SameSums;
    var tl := h.map_[n];
    ghost var next := n + 1;
    if tl < w.t0 || tl >= w.t0 + w.nt {
      forall f, t | 0 <= f < h.nfreq && w.t0 <= t < w.t0 + w.nt ensures SameSums(h, f, t, n, 0, 0, next, 0, 0) {
        NextSample(h, f, t, n);
      }
      Renamed(h, w, i0, w0, outInt[..], outWt[..], n, 0, 0, n + 1, 0, 0);
      return;
    }
    for p := 0 to h.npol
      invariant WindowHolds(h, w, i0, w0, outInt[..], outWt[..], n, p, 0)
    {
      for k := 0 to h.nfreq
        invariant WindowHolds(h, w, i0, w0, outInt[..], outWt[..], n, p, k)
      {
        ghost var a, b := outInt[..], outWt[..];
        CellInside(h, w, i0, w0, a, b, n, p, k, k, tl - w.t0);
        var s := Source(h, k, p, n);
        var i, j := RowStart(w.intBase, w.intStride, k) + (tl - w.t0), RowStart(w.wtBase, w.wtStride, k) + (tl - w.t0);
        TermAdded(h, w, i0, w0, a, b, n, p, k, i, j, s);
        outInt[i] := outInt[i] + h.intensity[s] * h.weights[s];
        outWt[j] := outWt[j] + h.weights[s];
        assert outInt[..] == a[i := a[i] + h.intensity[s] * h.weights[s]] && outWt[..] == b[j := b[j] + h.weights[s]];
      }
      ghost var after := p + 1;
      forall f, t | 0 <= f < h.nfreq && w.t0 <= t < w.t0 + w.nt ensures SameSums(h, f, t, n, p, h.nfreq, n, after, 0) {
        NextPolarization(h, f, t, n, p);
      }
      Renamed(h, w, i0, w0, outInt[..], outWt[..], n, p, h.nfreq, n, p + 1, 0);
    }
    forall f, t | 0 <= f < h.nfreq && w.t0 <= t < w.t0 + w.nt ensures SameSums(h, f, t, n, h.npol, 0, next, 0, 0) {
      NextSample(h, f, t, n);
    }
    Renamed(h, w, i0, w0, outInt[..], outWt[..], n, h.npol, 0, n + 1, 0, 0);
  }

  lemma NextPolarization(h: Contents, f: nat, t: nat, n: nat, p: nat)
    requires ValidContents(h) && f < h.nfreq && n < |h.map_|
    ensures SameSums(h, f, t, n, p, h.nfreq, n, p + 1, 0)
  {
  }

  /** The finished cell. */
  predicate CellDone(h: Contents, w: Window, outInt: seq<real>, outWt: seq<real>, f: nat, t: nat)
    requires ValidContents(h)
  {
    && f < h.nfreq
    && var i, j := RowStart(w.intBase, w.intStride, f) + t, RowStart(w.wtBase, w.wtStride, f) + t;
    && 0 <= i < |outInt| && 0 <= j < |outWt|
    && outInt[i] == IntensityAt(h, f, w.t0 + t) && outWt[j] == WeightAt(h, f, w.t0 + t)
  }

  predicate CellState(h: Contents, w: Window, outInt: seq<real>, outWt: seq<real>, f: nat, t: nat, k: nat, s: nat)
    requires ValidContents(h)
  {
    if f < k || (f == k && t < s) then CellDone(h, w, outInt, outWt, f, t) else CellHolds(h, w, outInt, outWt, f, t, |h.map_|, 0, 0)
  }

  /** Cells before (k, s) have been divided. */
  predicate DoneBefore(h: Contents, w: Window, i0: seq<real>, w0: seq<real>, outInt: seq<real>, outWt: seq<real>, k: nat, s: nat)
    requires ValidContents(h)
  {
    && (forall f, t :: 0 <= f < h.nfreq && 0 <= t < w.nt ==>
                         CellState(h, w, outInt, outWt, f, t, k, s))
    && Untouched(w.intBase, w.intStride, h.nfreq, w.nt, i0, outInt) && Untouched(w.wtBase, w.wtStride, h.nfreq, w.nt, w0, outWt)
  }

  lemma Divided(h: Contents, w: Window, i0: seq<real>, w0: seq<real>, outInt: seq<real>, outWt: seq<real>, k: nat, s: nat)
    requires ValidContents(h) && ValidWindow(h, w, |outInt|, |outWt|) && k < h.nfreq && s < w.nt
    requires DoneBefore(h, w, i0, w0, outInt, outWt, k, s)
    ensures var i, j := RowStart(w.intBase, w.intStride, k) + s, RowStart(w.wtBase, w.wtStride, k) + s;
            && 0 <= i < |outInt| && 0 <= j < |outWt|
            && DoneBefore(h, w, i0, w0, if outWt[j] > 0.0 then outInt[i := outInt[i] / outWt[j]] else outInt, outWt, k, s + 1)
  {
    hide RowStart, ValidContents, NoCell, IntensityAt, WeightAt, SoFarProduct, SoFarWeight, Untouched;
    assert CellState(h, w, outInt, outWt, k, s, k, s);
    var i, j := RowStart(w.intBase, w.intStride, k) + s, RowStart(w.wtBase, w.wtStride, k) + s;
    var int1, next := if outWt[j] > 0.0 then outInt[i := outInt[i] / outWt[j]] else outInt, s + 1;
    SumsAre(h, k, w.t0 + s);
    IsCell(w.intBase, w.intStride, h.nfreq, w.nt, k, s);
    UntouchedStays(w.intBase, w.intStride, h.nfreq, w.nt, i0, outInt, i, outInt[i] / if outWt[j] > 0.0 then outWt[j] else 1.0);
    assert CellDone(h, w, int1, outWt, k, s);
    forall f, t | 0 <= f < h.nfreq && 0 <= t < w.nt
      ensures CellState(h, w, int1, outWt, f, t, k, next)
    {
      assert CellState(h, w, outInt, outWt, f, t, k, s);
      if f != k || t != s {
        CellsApart(w.intBase, w.intStride, w.nt, f, t, k, s);
      }
    }
  }

  lemma UntouchedStays(base: int, stride: int, nfreq: nat, nt: nat, old_: seq<real>, new_: seq<real>, i: nat, x: real)
    requires Untouched(base, stride, nfreq, nt, old_, new_) && i < |new_| && !NoCell(base, stride, nfreq, nt, i)
    ensures Untouched(base, stride, nfreq, nt, old_, new_[i := x])
  {
  }

  lemma SumsAre(h: Contents, f: nat, t: nat)
    requires ValidContents(h) && f < h.nfreq
    ensures var x, y := SoFarProduct(h, f, t, |h.map_|, 0, 0), SoFarWeight(h, f, t, |h.map_|, 0, 0);
            y == WeightAt(h, f, t) && IntensityAt(h, f, t) == if y > 0.0 then x / y else x
  {
    hide Source;
    var it := FileSample(h, t, |h.map_|);
    if it >= 0 { NoWeightNoProduct(h, f, it, h.npol); }
  }

  lemma SumsToCells(h: Contents, w: Window, i0: seq<real>, w0: seq<real>, outInt: seq<real>, outWt: seq<real>)
    requires ValidContents(h) && WindowHolds(h, w, i0, w0, outInt, outWt, |h.map_|, 0, 0)
    ensures DoneBefore(h, w, i0, w0, outInt, outWt, 0, 0)
  {
    hide CellHolds, Untouched, ValidContents;
    forall f, t | 0 <= f < h.nfreq && 0 <= t < w.nt ensures CellState(h, w, outInt, outWt, f, t, 0, 0) {
      assert CellHolds(h, w, outInt, outWt, f, t, |h.map_|, 0, 0);
    }
  }

  lemma NextRow(h: Contents, w: Window, i0: seq<real>, w0: seq<real>, outInt: seq<real>, outWt: seq<real>, k: nat)
    requires ValidContents(h) && DoneBefore(h, w, i0, w0, outInt, outWt, k, w.nt)
    ensures DoneBefore(h, w, i0, w0, outInt, outWt, k + 1, 0)
  {
    hide CellHolds, CellDone, Untouched, ValidContents;
    var next := k + 1;
    forall f, t | 0 <= f < h.nfreq && 0 <= t < w.nt
      ensures CellState(h, w, outInt, outWt, f, t, next, 0)
    {
      assert CellState(h, w, outInt, outWt, f, t, k, w.nt);
    }
  }

  lemma AllDone(h: Contents, w: Window, i0: seq<real>, w0: seq<real>, outInt: seq<real>, outWt: seq<real>)
    requires ValidContents(h) && DoneBefore(h, w, i0, w0, outInt, outWt, h.nfreq, 0)
    ensures forall f, t :: 0 <= f < h.nfreq && 0 <= t < w.nt ==> CellDone(h, w, outInt, outWt, f, t)
  {
    hide CellHolds, CellDone, Untouched, ValidContents;
    forall f, t | 0 <= f < h.nfreq && 0 <= t < w.nt ensures CellDone(h, w, outInt, outWt, f, t) {
      assert CellState(h, w, outInt, outWt, f, t, h.nfreq, 0);
    }
  }

  /** The window, for any strides at least as long as it is: the same values that a window of the whole file has there. */
  method GetUnpolarizedIntensity(h: Contents, w: Window, outInt: array<real>, outWt: array<real>)
    requires ValidContents(h) && outInt != outWt && ValidWindow(h, w, outInt.Length, outWt.Length)
    modifies outInt, outWt
    ensures forall f, t :: 0 <= f < h.nfreq && 0 <= t < w.nt ==> CellDone(h, w, outInt[..], outWt[..], f, t)
    ensures Untouched(w.intBase, w.intStride, h.nfreq, w.nt, old(outInt[..]), outInt[..])
    ensures Untouched(w.wtBase, w.wtStride, h.nfreq, w.nt, old(outWt[..]), outWt[..])
  {
    hide ValidContents, RowStart, CellHolds, CellDone, Untouched;
    ghost var i0, w0 := outInt[..], outWt[..];
    ClearWindow(h, w, outInt, outWt);
    for n := 0 to |h.map_|
      invariant WindowHolds(h, w, i0, w0, outInt[..], outWt[..], n, 0, 0)
    {
      AddFileSample(h, w, outInt, outWt, n, i0, w0);
    }
    SumsToCells(h, w, i0, w0, outInt[..], outWt[..]);
    for k := 0 to h.nfreq
      invariant DoneBefore(h, w, i0, w0, outInt[..], outWt[..], k, 0)
    {
      for s := 0 to w.nt
        invariant DoneBefore(h, w, i0, w0, outInt[..], outWt[..], k, s)
      {
        ghost var a, b := outInt[..], outWt[..];
        Divided(h, w, i0, w0, a, b, k, s);
        var i, j := RowStart(w.intBase, w.intStride, k) + s, RowStart(w.wtBase, w.wtStride, k) + s;
        if outWt[j] > 0.0 {
          outInt[i] := outInt[i] / outWt[j];
          assert outInt[..] == a[i := a[i] / b[j]];
        }
      }
      NextRow(h, w, i0, w0, outInt[..], outWt[..], k);
    }
    AllDone(h, w, i0, w0, outInt[..], outWt[..]);
  }

  /** Zeros in the window, nothing else. */
  method ClearWindow(h: Contents, w: Window, outInt: array<real>, outWt: array<real>)
    requires ValidContents(h) && outInt != outWt && ValidWindow(h, w, outInt.Length, outWt.Length)
    modifies outInt, outWt
    ensures WindowHolds(h, w, old(outInt[..]), old(outWt[..]), outInt[..], outWt[..], 0, 0, 0)
  {
    ghost var i0, w0 := outInt[..], outWt[..];
    ClearRows(outInt, w.intBase, w.intStride, h.nfreq, w.nt);
    ClearRows(outWt, w.wtBase, w.wtStride, h.nfreq, w.nt);
    forall f, t | 0 <= f < h.nfreq && 0 <= t < w.nt ensures CellHolds(h, w, outInt[..], outWt[..], f, t, 0, 0, 0) {
      assert Cleared(outInt[..], w.intBase, w.intStride, f, t) && Cleared(outWt[..], w.wtBase, w.wtStride, f, t);
    }
  }

  predicate Cleared(s: seq<real>, base: int, stride: int, f: nat, t: nat) {
    0 <= RowStart(base, stride, f) + t < |s| && s[RowStart(base, stride, f) + t] == 0.0
  }

  method ClearRows(a: array<real>, base: int, stride: int, nfreq: nat, nt: nat)
    requires Magnitude(stride) >= nt && Inside(a.Length, base, stride, nfreq, nt)
    modifies a
    ensures Untouched(base, stride, nfreq, nt, old(a[..]), a[..])
    ensures forall f, t :: 0 <= f < nfreq && 0 <= t < nt ==> Cleared(a[..], base, stride, f, t)
  {
    hide RowStart;
    for f := 0 to nfreq
      invariant Untouched(base, stride, nfreq, nt, old(a[..]), a[..])
      invariant forall g, t :: 0 <= g < f && 0 <= t < nt ==> Cleared(a[..], base, stride, g, t)
    {
      ghost var before := a[..];
      var at := RowStart(base, stride, f);
      forall i | at <= i < at + nt { a[i] := 0.0; }
      forall g, t | 0 <= g < f + 1 && 0 <= t < nt ensures Cleared(a[..], base, stride, g, t) {
        if g < f { assert Cleared(before, base, stride, g, t); }
      }
    }
  }
}
