/**
  Encoding intensities as bytes, over the reals.  A block's valid samples are centred on their mean and scaled by
  their deviation; bytes 0 and 255 mean "masked".  The question is how many valid samples the encoding masks, and
  how far the others move.
*/
module EncodeBound {

  type uint8 = x: int | 0 <= x < 256

  datatype Sample = Masked | Valid(x: real)

  // ------------------------------------------------------------------------------------------------
  // Sums over the valid samples

  function Count(s: seq<Sample>): nat {
    if s == [] then 0 else Count(s[..|s| - 1]) + if s[|s| - 1].Valid? then 1 else 0
  }

  function Sum(s: seq<Sample>): real {
    if s == [] then 0.0 else Sum(s[..|s| - 1]) + if s[|s| - 1].Valid? then s[|s| - 1].x else 0.0
  }

  function SumSquares(s: seq<Sample>): (r: real)
    ensures r >= 0.0
  {
    if s == [] then 0.0 else SumSquares(s[..|s| - 1]) + if s[|s| - 1].Valid? then Square(s[|s| - 1].x) else 0.0
  }

  /** Squared deviations from m. */
  function Deviation(s: seq<Sample>, m: real): (r: real)
    ensures r >= 0.0
  {
    if s == [] then 0.0 else Deviation(s[..|s| - 1], m) + if s[|s| - 1].Valid? then Square(s[|s| - 1].x - m) else 0.0
  }

  function Square(x: real): (r: real)
    ensures r >= 0.0
  {
    x * x
  }

  function Max(x: real, y: real): real {
    if x < y then y else x
  }

  function Min(x: real, y: real): real {
    if y < x then y else x
  }

  /** How many valid samples are at least `far` (squared) away from m. */
  function Outliers(s: seq<Sample>, m: real, far: real): nat {
    if s == [] then 0
    else Outliers(s[..|s| - 1], m, far) + if s[|s| - 1].Valid? && Square(s[|s| - 1].x - m) >= far then 1 else 0
  }

  /** Each outlier contributes at least `far` to the squared deviation. */
  lemma {:induction false} OutliersDeviate(s: seq<Sample>, m: real, far: real)
    requires far >= 0.0
    ensures Deviation(s, m) >= far * (Outliers(s, m, far) as real)
  {
    if s != [] {
      OutliersDeviate(s[..|s| - 1], m, far);
      var n := Outliers(s[..|s| - 1], m, far);
      assert far * ((n + 1) as real) == far * (n as real) + far;
    }
  }

  /** Chebyshev: if the mean squared deviation is at most v, then at most 1/c of the samples deviate by c times v. */
  lemma FewOutliers(s: seq<Sample>, m: real, v: real, c: real)
    requires v > 0.0 && c > 0.0 && Deviation(s, m) <= v * (Count(s) as real)
    ensures c * (Outliers(s, m, c * v) as real) <= Count(s) as real
  {
    hide Outliers, Deviation, Count;
    OutliersDeviate(s, m, c * v);
    Cancel(c, v, Outliers(s, m, c * v) as real, Count(s) as real);
  }

  lemma Cancel(c: real, v: real, k: real, n: real)
    requires v > 0.0 && (c * v) * k <= v * n
    ensures c * k <= n
  {
    assert v * (c * k - n) == (c * v) * k - v * n;
    if c * k - n > 0.0 { PositiveProduct(v, c * k - n); }
  }

  lemma PositiveProduct(x: real, y: real)
    requires x > 0.0 && y > 0.0
    ensures x * y > 0.0
  {
  }

  lemma ProductSign(x: real, y: real, v: real)
    requires x * y == v
    ensures (x > 0.0 && y > 0.0) || (x < 0.0 && y < 0.0) ==> v > 0.0
    ensures x == 0.0 ==> v == 0.0
  {
    if x > 0.0 && y > 0.0 { PositiveProduct(x, y); }
    if x < 0.0 && y < 0.0 { PositiveProduct(-x, -y); }
  }

  lemma NonzeroSquare(x: real)
    requires x != 0.0
    ensures Square(x) > 0.0
  {
    ProductSign(x, x, Square(x));
  }

  // ------------------------------------------------------------------------------------------------
  // Encoding one sample

  /** Round to nearest, halves up. */
  function Round(y: real): int {
    (y + 0.5).Floor
  }

  function Clamp(y: real): (r: real)
    ensures 0.0 <= r <= 255.0
  {
    Min(Max(y, 0.0), 255.0)
  }

  /** The encoded value before clamping, for a block with the given mean and scale: 128 stands for the mean. */
  function Position(x: real, mean: real, scale: real): real
    requires scale > 0.0
  {
    (x - Offset(mean, scale)) / scale
  }

  function Offset(mean: real, scale: real): real {
    mean - 128.0 * scale
  }

  function EncodeSample(s: Sample, mean: real, scale: real): (r: uint8)
    requires scale > 0.0
    ensures s.Masked? ==> r == 0
  {
    match s
    case Masked => 0
    case Valid(x) => Round(Clamp(Position(x, mean, scale)))
  }

  lemma MaskedStaysMasked(mean: real, scale: real)
    requires scale > 0.0
    ensures EncodeSample(Masked, mean, scale) == 0
  {
  }

  /** The two byte values that mean "masked". */
  predicate Sentinel(d: uint8) {
    d == 0 || d == 255
  }

  function DecodeByte(d: uint8, mean: real, scale: real): real {
    scale * (d as real) + Offset(mean, scale)
  }

  lemma PositionIs(x: real, mean: real, scale: real)
    requires scale > 0.0
    ensures Position(x, mean, scale) * scale == x - mean + 128.0 * scale
  {
  }

  /** A byte that is not a sentinel decodes to within half a step. */
  lemma SurvivorIsClose(x: real, mean: real, scale: real)
    requires scale > 0.0 && !Sentinel(EncodeSample(Valid(x), mean, scale))
    ensures var d := DecodeByte(EncodeSample(Valid(x), mean, scale), mean, scale);
            -scale / 2.0 <= d - x <= scale / 2.0
  {
    var y := Position(x, mean, scale);
    var d := EncodeSample(Valid(x), mean, scale);
    assert 0.5 <= y < 254.5;
    assert -0.5 <= d as real - y <= 0.5;
    PositionIs(x, mean, scale);
    Scaled(d as real - y, scale);
    assert scale * (d as real) - scale * y == scale * (d as real - y);
  }

  lemma Scaled(e: real, scale: real)
    requires scale > 0.0 && -0.5 <= e <= 0.5
    ensures -scale / 2.0 <= scale * e <= scale / 2.0
  {
    assert scale * (0.5 - e) >= 0.0 && scale * (e + 0.5) >= 0.0;
    assert scale * (0.5 - e) == scale / 2.0 - scale * e;
    assert scale * (e + 0.5) == scale / 2.0 + scale * e;
  }

  /** A valid sample becomes a sentinel only if it is at least 126.5 steps from the mean. */
  lemma SentinelIsFar(x: real, mean: real, scale: real)
    requires scale > 0.0 && Sentinel(EncodeSample(Valid(x), mean, scale))
    ensures Square(x - mean) >= Square(126.5) * Square(scale)
  {
    var y := Position(x, mean, scale);
    PositionIs(x, mean, scale);
    assert y < 0.5 || y >= 254.5;
    assert y * scale == x - mean + 128.0 * scale;
    var z := y - 128.0;
    assert z * scale == x - mean;
    assert z <= -126.5 || z >= 126.5;
    FarSquared(z);
    assert Square(z * scale) == Square(z) * Square(scale);
    assert (Square(z) - Square(126.5)) * Square(scale) >= 0.0;
  }

  lemma FarSquared(z: real)
    requires z <= -126.5 || z >= 126.5
    ensures Square(z) >= Square(126.5)
  {
    if z >= 126.5 {
      assert (z - 126.5) * (z + 126.5) >= 0.0;
    } else {
      assert (-z - 126.5) * (-z + 126.5) >= 0.0;
    }
  }

  function Sentinels(s: seq<Sample>, mean: real, scale: real): nat
    requires scale > 0.0
  {
    if s == [] then 0
    else Sentinels(s[..|s| - 1], mean, scale)
         + if s[|s| - 1].Valid? && Sentinel(EncodeSample(s[|s| - 1], mean, scale)) then 1 else 0
  }

  lemma {:induction false} SentinelsAreOutliers(s: seq<Sample>, mean: real, scale: real)
    requires scale > 0.0
    ensures Sentinels(s, mean, scale) <= Outliers(s, mean, Square(126.5) * Square(scale))
  {
    hide Square, EncodeSample;
    if s != [] {
      SentinelsAreOutliers(s[..|s| - 1], mean, scale);
      var last := s[|s| - 1];
      if last.Valid? && Sentinel(EncodeSample(last, mean, scale)) { SentinelIsFar(last.x, mean, scale); }
    }
  }

  /** If a step is 1/25 of a deviation whose square is at least the mean squared deviation, few samples are far out. */
  lemma FewAreFar(s: seq<Sample>, mean: real, rms: real, scale: real)
    requires rms > 0.0 && scale == rms / 25.0
    requires Deviation(s, mean) <= Square(rms) * (Count(s) as real)
    ensures 25 * Outliers(s, mean, Square(126.5) * Square(scale)) <= Count(s)
  {
    hide Count, Deviation, Outliers;
    var v := Square(rms);
    assert Square(scale) == v / 625.0;
    var c := Square(126.5) / 625.0;
    assert c * v == Square(126.5) * Square(scale);
    assert c >= 25.0;
    NonzeroSquare(rms);
    FewOutliers(s, mean, v, c);
    var k := Outliers(s, mean, c * v);
    assert 25.0 * (k as real) <= c * (k as real);
  }

  /** Then at most one valid sample in 25 becomes a sentinel. */
  lemma AtMostOneIn25(s: seq<Sample>, mean: real, rms: real, scale: real)
    requires rms > 0.0 && scale == rms / 25.0
    requires Deviation(s, mean) <= Square(rms) * (Count(s) as real)
    ensures 25 * Sentinels(s, mean, scale) <= Count(s)
  {
    hide Count, Deviation, Sentinels, Outliers;
    FewAreFar(s, mean, rms, scale);
    SentinelsAreOutliers(s, mean, scale);
  }

  // ------------------------------------------------------------------------------------------------
  // The statistics of a downsampled block

  /** A square root, as far as the program relies on it. */
  ghost predicate IsRoot(root: real -> real) {
    forall v :: v >= 0.0 ==> root(v) >= 0.0 && root(v) * root(v) == v
  }

  function Mean(s: seq<Sample>): real {
    Sum(s) / Max(Count(s) as real, 0.5)
  }

  /** The variance, regulated so that equal samples other than zero do not give zero. */
  function Variance(s: seq<Sample>): real {
    Deviation(s, Mean(s)) / Max(Count(s) as real, 1.0) + 0.0000000001 * Square(Mean(s))
  }

  function Rms(s: seq<Sample>, root: real -> real): real {
    if Variance(s) > 0.0 then root(Variance(s)) else 1.0
  }

  function DecScale(s: seq<Sample>, root: real -> real): real {
    0.04 * Rms(s, root)
  }

  lemma RmsIsPositive(s: seq<Sample>, root: real -> real)
    requires IsRoot(root)
    ensures Rms(s, root) > 0.0
  {
    var v := Variance(s);
    if v > 0.0 { assert root(v) >= 0.0 && root(v) * root(v) == v; }
  }

  /** The regulated deviation is never less than the plain one. */
  lemma RmsCoversDeviation(s: seq<Sample>, root: real -> real)
    requires IsRoot(root)
    ensures Deviation(s, Mean(s)) <= Square(Rms(s, root)) * (Count(s) as real)
  {
    hide Deviation, Mean;
    var n, d, m := Count(s) as real, Deviation(s, Mean(s)), Mean(s);
    NoneDeviate(s, m);
    if Count(s) > 0 {
      var v := Variance(s);
      assert Max(n, 1.0) == n;
      assert v >= d / n;
      if v > 0.0 {
        assert root(v) * root(v) == v;
        Scale(v, d, n);
      } else {
        Scale(0.0, d, n);
      }
    }
  }

  lemma Scale(v: real, d: real, n: real)
    requires n > 0.0 && v >= d / n
    ensures v * n >= d
  {
    assert (d / n) * n == d;
    assert (v - d / n) * n >= 0.0;
    assert (v - d / n) * n == v * n - (d / n) * n;
  }

  lemma {:induction false} NoneDeviate(s: seq<Sample>, m: real)
    ensures Count(s) == 0 ==> Deviation(s, m) == 0.0
  {
    if s != [] { NoneDeviate(s[..|s| - 1], m); }
  }

  /** In every downsampled block at most one valid sample in 25 becomes a sentinel. */
  lemma DownsampledBlockBound(s: seq<Sample>, root: real -> real)
    requires IsRoot(root)
    ensures DecScale(s, root) > 0.0
    ensures 25 * Sentinels(s, Mean(s), DecScale(s, root)) <= Count(s)
  {
    hide Mean, Sentinels, Deviation;
    RmsIsPositive(s, root);
    RmsCoversDeviation(s, root);
    var rms := Rms(s, root);
    assert DecScale(s, root) == rms / 25.0;
    AtMostOneIn25(s, Mean(s), rms, DecScale(s, root));
  }

  /**
    Offset and scale of a downsampled block, said of its samples: 25 steps are the deviation from the mean (regulated by
    a ten-billionth of the squared mean), 128 stands for the mean; a step is 0.04 where there is nothing to scale.
  */
  predicate FitsBlock(s: seq<Sample>, offset: real, scale: real) {
    var n := Count(s) as real;
    if Count(s) == 0 then scale == 0.04 && offset == -128.0 * 0.04
    else
      var m := Sum(s) / n;
      && scale > 0.0 && offset == m - 128.0 * scale
      && if Deviation(s, m) > 0.0 || m != 0.0
         then 625.0 * Square(scale) * n == Deviation(s, m) + 0.0000000001 * Square(m) * n
         else scale == 0.04
  }

  lemma BlockIsFitted(s: seq<Sample>, root: real -> real)
    requires IsRoot(root)
    ensures DecScale(s, root) > 0.0 && FitsBlock(s, Offset(Mean(s), DecScale(s, root)), DecScale(s, root))
  {
    RmsIsPositive(s, root);
    if Count(s) == 0 {
      NothingCounts(s);
    } else {
      var n, m, d, v := Count(s) as real, Mean(s), Deviation(s, Mean(s)), Variance(s);
      assert m == Sum(s) / n;
      assert (d / n) * n == d && d / n >= 0.0;
      hide Count, Sum, Deviation, Mean;
      if m != 0.0 { NonzeroSquare(m); }
      if d > 0.0 { PositiveQuotient(d, n); }
      if v > 0.0 {
        var r := Rms(s, root);
        assert r * r == v;
        Fitted(v, d, m, n, r, 0.04 * r);
      }
    }
  }

  lemma Fitted(v: real, d: real, m: real, n: real, r: real, scale: real)
    requires n > 0.0 && v == d / n + 0.0000000001 * Square(m) && r * r == v && scale == 0.04 * r
    ensures 625.0 * Square(scale) * n == d + 0.0000000001 * Square(m) * n
  {
    assert 625.0 * Square(scale) == v;
    assert (d / n) * n == d;
    assert (d / n + 0.0000000001 * Square(m)) * n == (d / n) * n + 0.0000000001 * Square(m) * n;
  }

  lemma {:induction false} NothingCounts(s: seq<Sample>)
    requires Count(s) == 0
    ensures Sum(s) == 0.0 && forall m :: Deviation(s, m) == 0.0
  {
    if s != [] { NothingCounts(s[..|s| - 1]); }
  }

  /** Half a scale is a fiftieth of that deviation. */
  lemma HalfAScale(e: real, scale: real, n: real, d: real)
    requires n > 0.0 && -scale / 2.0 <= e <= scale / 2.0 && 625.0 * Square(scale) * n == d
    ensures 2500.0 * Square(e) * n <= d
  {
    var h := scale / 2.0;
    assert (h - e) * (h + e) == Square(h) - Square(e);
    assert (h - e) * (h + e) >= 0.0;
    assert 2500.0 * Square(h) == 625.0 * Square(scale);
    assert (Square(h) - Square(e)) * n >= 0.0;
    assert (Square(h) - Square(e)) * n == Square(h) * n - Square(e) * n;
  }

  // ------------------------------------------------------------------------------------------------
  // The statistics of a packet

  function PacketMean(s: seq<Sample>): real
    requires Count(s) > 0
  {
    Sum(s) / (Count(s) as real)
  }

  /** From the sums of the samples and of their squares. */
  function PacketVariance(s: seq<Sample>): real
    requires Count(s) > 0
  {
    Max(SumSquares(s) / (Count(s) as real) - Square(PacketMean(s)), 0.00001 * Square(PacketMean(s)))
  }

  function PacketScale(s: seq<Sample>, root: real -> real): real
    requires Count(s) > 0
  {
    root(PacketVariance(s)) / 25.0
  }

  /** Sum of squared deviations from m of n values with sum t and sum of squares q. */
  function Expanded(q: real, m: real, t: real, n: real): real {
    q - 2.0 * m * t + Square(m) * n
  }

  lemma {:induction false} DeviationExpands(s: seq<Sample>, m: real)
    ensures Deviation(s, m) == Expanded(SumSquares(s), m, Sum(s), Count(s) as real)
  {
    hide Square, Expanded;
    if s == [] {
      ExpandNone(m);
    } else {
      var front, last := s[..|s| - 1], s[|s| - 1];
      DeviationExpands(front, m);
      if last.Valid? { ExpandStep(SumSquares(front), Sum(front), Count(front) as real, last.x, m); }
    }
  }

  lemma ExpandNone(m: real)
    ensures Expanded(0.0, m, 0.0, 0.0) == 0.0
  {
  }

  lemma ExpandStep(q: real, t: real, n: real, x: real, m: real)
    ensures Expanded(q, m, t, n) + Square(x - m) == Expanded(q + Square(x), m, t + x, n + 1.0)
  {
    ExpandOne(x, m, t, n);
  }

  lemma ExpandOne(x: real, m: real, t: real, n: real)
    ensures Square(x - m) == Square(x) - 2.0 * m * x + Square(m)
    ensures 2.0 * m * (t + x) == 2.0 * m * t + 2.0 * m * x
    ensures Square(m) * (n + 1.0) == Square(m) * n + Square(m)
  {
  }

  /** The one-pass variance is the mean squared deviation. */
  lemma VarianceIsDeviation(s: seq<Sample>)
    requires Count(s) > 0
    ensures (SumSquares(s) / (Count(s) as real) - Square(PacketMean(s))) * (Count(s) as real) == Deviation(s, PacketMean(s))
  {
    hide SumSquares, Sum, Count, Deviation;
    var n, m, q := Count(s) as real, PacketMean(s), SumSquares(s);
    DeviationExpands(s, m);
    assert m * n == Sum(s);
    assert 2.0 * m * (m * n) == 2.0 * (Square(m) * n);
    assert (q / n) * n == q;
    assert (q / n - Square(m)) * n == (q / n) * n - Square(m) * n;
  }

  predicate AllZero(s: seq<Sample>) {
    s == [] || ((s[|s| - 1].Valid? ==> s[|s| - 1].x == 0.0) && AllZero(s[..|s| - 1]))
  }

  lemma {:induction false} ZeroSums(s: seq<Sample>)
    ensures AllZero(s) ==> Sum(s) == 0.0
    ensures AllZero(s) <==> SumSquares(s) == 0.0
  {
    if s != [] {
      ZeroSums(s[..|s| - 1]);
      var last := s[|s| - 1];
      if last.Valid? && last.x != 0.0 { NonzeroSquare(last.x); }
    }
  }

  /** The scale of a packet is positive, and its encoding well defined, unless all valid samples are zero. */
  lemma PacketScaleIsPositiveIff(s: seq<Sample>, root: real -> real)
    requires IsRoot(root) && Count(s) > 0
    ensures PacketVariance(s) >= 0.0
    ensures PacketScale(s, root) > 0.0 <==> !AllZero(s)
  {
    hide Count, Sum, SumSquares, AllZero;
    var n, m, q := Count(s) as real, PacketMean(s), SumSquares(s);
    var v := PacketVariance(s);
    ZeroSums(s);
    if AllZero(s) {
      assert q / n == 0.0;
      assert m == 0.0;
      assert v == 0.0;
    } else if m != 0.0 {
      NonzeroSquare(m);
    } else {
      assert q > 0.0;
      PositiveQuotient(q, n);
    }
    RootOfPositive(root(v), v);
  }

  lemma RootOfPositive(r: real, v: real)
    requires r >= 0.0 && r * r == v
    ensures r > 0.0 <==> v > 0.0
  {
    ProductSign(r, r, v);
  }

  lemma PositiveQuotient(q: real, n: real)
    requires q > 0.0 && n > 0.0
    ensures q / n > 0.0
  {
  }

  /** In every encoded packet block at most one valid sample in 25 becomes a sentinel. */
  lemma PacketBlockBound(s: seq<Sample>, root: real -> real)
    requires IsRoot(root) && Count(s) > 0 && !AllZero(s)
    ensures PacketScale(s, root) > 0.0
    ensures 25 * Sentinels(s, PacketMean(s), PacketScale(s, root)) <= Count(s)
  {
    hide Count, Deviation, Sentinels, AllZero, PacketMean, SumSquares;
    PacketScaleIsPositiveIff(s, root);
    VarianceIsDeviation(s);
    var n, m := Count(s) as real, PacketMean(s);
    var v, w := PacketVariance(s), SumSquares(s) / (Count(s) as real) - Square(PacketMean(s));
    var rms := root(v);
    assert rms * rms == v;
    assert v >= w;
    assert (v - w) * n >= 0.0 && (v - w) * n == v * n - w * n;
    AtMostOneIn25(s, m, rms, PacketScale(s, root));
  }

  /** The same for a packet: its deviation is at least a hundred-thousandth of its squared mean. */
  predicate FitsPacket(s: seq<Sample>, offset: real, scale: real) {
    var n := Count(s) as real;
    if Count(s) == 0 then scale == 1.0 && offset == 0.0
    else
      var m := Sum(s) / n;
      && scale >= 0.0 && offset == m - 128.0 * scale
      && 625.0 * Square(scale) * n == Max(Deviation(s, m), 0.00001 * Square(m) * n)
  }

  lemma PacketIsFitted(s: seq<Sample>, root: real -> real)
    requires IsRoot(root) && Count(s) > 0
    ensures FitsPacket(s, Offset(PacketMean(s), PacketScale(s, root)), PacketScale(s, root))
  {
    hide Count, Sum, SumSquares, Deviation, AllZero;
    PacketScaleIsPositiveIff(s, root);
    VarianceIsDeviation(s);
    var n, m, v := Count(s) as real, PacketMean(s), PacketVariance(s);
    var r := root(v);
    assert r >= 0.0 && r * r == v;
    FittedPacket(SumSquares(s) / n - Square(m), Deviation(s, m), m, n, r, r / 25.0);
  }

  lemma FittedPacket(w: real, d: real, m: real, n: real, r: real, scale: real)
    requires n > 0.0 && w * n == d && r * r == Max(w, 0.00001 * Square(m)) && scale == r / 25.0
    ensures 625.0 * Square(scale) * n == Max(d, 0.00001 * Square(m) * n)
  {
    var k := 0.00001 * Square(m);
    assert 625.0 * Square(scale) == Max(w, k);
    assert (w - k) * n == w * n - k * n;
    if w > k { PositiveProduct(w - k, n); } else { assert (k - w) * n >= 0.0; }
  }
}
