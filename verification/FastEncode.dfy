/**
  The vectorized encoding kernel: four registers of clamped values become 32 bytes, rounding ties to even.  The bytes
  differ from those of the reference kernel exactly at some ties, and the bound on masked samples holds as well.
*/
module FastEncode {
  import opened BitMatrix
  import opened DownsampleKernels
  import opened EncodeBound
  import opened FastKernels
  import opened FastLanes

  // ------------------------------------------------------------------------------------------------
  // One sample

  /** Round to nearest, ties to even. */
  function RoundEven(y: real): int {
    var f := y.Floor;
    var d := y - f as real;
    if d < 0.5 then f else if d > 0.5 then f + 1 else if f % 2 == 0 then f else f + 1
  }

  lemma RoundEvenInRange(y: real)
    requires 0.0 <= y <= 255.0
    ensures 0 <= RoundEven(y) <= 255 && (y == 0.0 ==> RoundEven(y) == 0)
  {
  }

  function FastEncodeSample(s: Sample, mean: real, scale: real): (r: uint8)
    requires scale > 0.0
  {
    match s
    case Masked => 0
    case Valid(x) =>
      var y := Clamp(Position(x, mean, scale));
      RoundEvenInRange(y);
      RoundEven(y)
  }

  /** Halfway between an even byte and the next. */
  predicate EvenTie(s: Sample, mean: real, scale: real)
    requires scale > 0.0
  {
    s.Valid? && var y := Clamp(Position(s.x, mean, scale)); y - y.Floor as real == 0.5 && y.Floor % 2 == 0
  }

  /** The two encodings differ exactly at ties above an even byte, and then by one step. */
  lemma DifferAtTies(s: Sample, mean: real, scale: real)
    requires scale > 0.0
    ensures FastEncodeSample(s, mean, scale) != EncodeSample(s, mean, scale) <==> EvenTie(s, mean, scale)
    ensures EvenTie(s, mean, scale) ==> FastEncodeSample(s, mean, scale) == EncodeSample(s, mean, scale) - 1
  {
    hide Position, Clamp;
    if s.Valid? { RoundingsDiffer(Clamp(Position(s.x, mean, scale))); }
  }

  // A block in which they differ

  function Repeated(x: Sample, n: nat): (s: seq<Sample>)
    ensures |s| == n && forall i :: 0 <= i < n ==> s[i] == x
  {
    if n == 0 then [] else Repeated(x, n - 1) + [x]
  }

  lemma {:induction false} RepeatedSums(s: seq<Sample>, x: real, n: nat, m: real)
    ensures Count(s + Repeated(Valid(x), n)) == Count(s) + n
    ensures Sum(s + Repeated(Valid(x), n)) == Sum(s) + Summed(x, n)
    ensures Deviation(s + Repeated(Valid(x), n), m) == Deviation(s, m) + Summed(Square(x - m), n)
  {
    var t := s + Repeated(Valid(x), n);
    if n == 0 {
      assert t == s;
    } else {
      var before := s + Repeated(Valid(x), n - 1);
      RepeatedSums(s, x, n - 1, m);
      assert t == before + [Valid(x)];
      hide Repeated, Count, Sum, Deviation, Square;
      SumsPush(before, x, m);
    }
  }

  lemma SumsPush(s: seq<Sample>, x: real, m: real)
    ensures var t := s + [Valid(x)];
            Count(t) == Count(s) + 1 && Sum(t) == Sum(s) + x && Deviation(t, m) == Deviation(s, m) + Square(x - m)
  {
    assert (s + [Valid(x)])[..|s|] == s;
  }

  function Summed(y: real, n: nat): real {
    if n == 0 then 0.0 else Summed(y, n - 1) + y
  }

  /** Sixteen samples with mean 0 and deviation 2. */
  function TieBlock(): (s: seq<Sample>)
    ensures |s| == 16 && s[0] == Valid(1.0)
  {
    Repeated(Valid(1.0), 5) + Repeated(Valid(-1.0), 5) + Repeated(Valid(3.0), 3) + Repeated(Valid(-3.0), 3)
  }

  lemma TieBlockSums()
    ensures Count(TieBlock()) == 16 && Sum(TieBlock()) == 0.0 && Deviation(TieBlock(), 0.0) == 64.0
  {
    var none: seq<Sample> := [];
    var a := none + Repeated(Valid(1.0), 5);
    var b := a + Repeated(Valid(-1.0), 5);
    var c := b + Repeated(Valid(3.0), 3);
    RepeatedSums(none, 1.0, 5, 0.0);
    RepeatedSums(a, -1.0, 5, 0.0);
    RepeatedSums(b, 3.0, 3, 0.0);
    RepeatedSums(c, -3.0, 3, 0.0);
    assert a == Repeated(Valid(1.0), 5);
    assert TieBlock() == c + Repeated(Valid(-3.0), 3);
  }

  /** A step is 0.08, so the sample 1 lies at 140.5: the reference encodes it as 141, the fast kernel as 140. */
  lemma TieHappens(root: real -> real)
    requires IsRoot(root)
    ensures var s := TieBlock();
            && DecScale(s, root) > 0.0
            && EvenTie(s[0], Mean(s), DecScale(s, root))
            && EncodeSample(s[0], Mean(s), DecScale(s, root)) == 141
            && FastEncodeSample(s[0], Mean(s), DecScale(s, root)) == 140
  {
    var s := TieBlock();
    TieBlockSums();
    hide Count, Sum, Deviation, TieBlock;
    assert Mean(s) == 0.0 && Variance(s) == 4.0;
    var r := root(4.0);
    assert r >= 0.0 && r * r == 4.0;
    RootOfFour(r);
    hide Mean, Variance;
    assert DecScale(s, root) == 0.08;
    assert Position(1.0, 0.0, 0.08) == 140.5;
  }

  lemma RootOfFour(r: real)
    requires r >= 0.0 && r * r == 4.0
    ensures r == 2.0
  {
    assert (r - 2.0) * (r + 2.0) == 0.0;
    ProductSign(r - 2.0, r + 2.0, 0.0);
    if r < 2.0 { PositiveProduct(2.0 - r, r + 2.0); }
  }

  lemma RoundingsDiffer(y: real)
    ensures RoundEven(y) == Round(y) - if y - y.Floor as real == 0.5 && y.Floor % 2 == 0 then 1 else 0
  {
    var f := y.Floor;
    var d := y - f as real;
    if d < 0.5 {
      assert f as real <= y + 0.5 < (f + 1) as real;
    } else {
      assert (f + 1) as real <= y + 0.5 < (f + 2) as real;
    }
  }

  lemma ByteIsClose(y: real, d: uint8)
    requires d == RoundEven(Clamp(y)) && !Sentinel(d)
    ensures 0.5 <= y <= 254.5 && -0.5 <= d as real - y <= 0.5
  {
  }

  lemma FastSurvivorIsClose(x: real, mean: real, scale: real)
    requires scale > 0.0 && !Sentinel(FastEncodeSample(Valid(x), mean, scale))
    ensures -scale / 2.0 <= DecodeByte(FastEncodeSample(Valid(x), mean, scale), mean, scale) - x <= scale / 2.0
  {
    var y := Position(x, mean, scale);
    var d := FastEncodeSample(Valid(x), mean, scale);
    ByteIsClose(y, d);
    PositionIs(x, mean, scale);
    hide Position, RoundEven, Clamp, Sentinel, FastEncodeSample;
    CloseScaled(x, mean, scale, y, d as real);
  }

  lemma Product(a: real, b: real, c: real, d: real)
    requires d == b + c
    ensures a * d == b * a + a * c
  {
  }

  lemma CloseScaled(x: real, mean: real, scale: real, y: real, d: real)
    requires scale > 0.0 && y * scale == x - mean + 128.0 * scale && -0.5 <= d - y <= 0.5
    ensures -scale / 2.0 <= scale * d + (mean - 128.0 * scale) - x <= scale / 2.0
  {
    var e := d - y;
    Scaled(e, scale);
    Product(scale, y, e, d);
    var p, q, r := scale * d, y * scale, scale * e;
    assert p == q + r && q == x - mean + 128.0 * scale && -scale / 2.0 <= r <= scale / 2.0;
  }

  lemma FastSentinelIsFar(x: real, mean: real, scale: real)
    requires scale > 0.0 && Sentinel(FastEncodeSample(Valid(x), mean, scale))
    ensures Square(x - mean) >= Square(126.5) * Square(scale)
  {
    var y := Position(x, mean, scale);
    PositionIs(x, mean, scale);
    assert y <= 0.5 || y > 254.5;
    assert y * scale == x - mean + 128.0 * scale;
    var z := y - 128.0;
    assert z * scale == x - mean;
    FarSquared(z);
    assert Square(z * scale) == Square(z) * Square(scale);
    assert (Square(z) - Square(126.5)) * Square(scale) >= 0.0;
  }

  function FastSentinels(s: seq<Sample>, mean: real, scale: real): nat
    requires scale > 0.0
  {
    if s == [] then 0
    else FastSentinels(s[..|s| - 1], mean, scale)
         + if s[|s| - 1].Valid? && Sentinel(FastEncodeSample(s[|s| - 1], mean, scale)) then 1 else 0
  }

  lemma {:induction false} FastSentinelsAreOutliers(s: seq<Sample>, mean: real, scale: real)
    requires scale > 0.0
    ensures FastSentinels(s, mean, scale) <= Outliers(s, mean, Square(126.5) * Square(scale))
  {
    hide Square, FastEncodeSample;
    if s != [] {
      FastSentinelsAreOutliers(s[..|s| - 1], mean, scale);
      var last := s[|s| - 1];
      if last.Valid? && Sentinel(FastEncodeSample(last, mean, scale)) { FastSentinelIsFar(last.x, mean, scale); }
    }
  }

  /** The vectorized kernel keeps the reference kernel's promises about a block. */
  lemma FastBlockBound(s: seq<Sample>, root: real -> real)
    requires IsRoot(root)
    ensures var mean, scale := Mean(s), DecScale(s, root);
            && scale > 0.0
            && 25 * FastSentinels(s, mean, scale) <= Count(s)
            && forall k :: 0 <= k < |s| ==>
                             var d := FastEncodeSample(s[k], mean, scale);
                             if s[k].Masked? then Sentinel(d)
                             else Sentinel(d) || -scale / 2.0 <= DecodeByte(d, mean, scale) - s[k].x <= scale / 2.0
  {
    hide Mean, FastSentinels, Deviation, Outliers, Count, FastEncodeSample, DecodeByte;
    RmsIsPositive(s, root);
    RmsCoversDeviation(s, root);
    var mean, rms, scale := Mean(s), Rms(s, root), DecScale(s, root);
    assert scale == rms / 25.0;
    FewAreFar(s, mean, rms, scale);
    FastSentinelsAreOutliers(s, mean, scale);
    forall k | 0 <= k < |s|
      ensures var d := FastEncodeSample(s[k], mean, scale);
              if s[k].Masked? then Sentinel(d)
              else Sentinel(d) || -scale / 2.0 <= DecodeByte(d, mean, scale) - s[k].x <= scale / 2.0
    {
      match s[k]
      case Masked => FastMasked(mean, scale);
      case Valid(x) => if !Sentinel(FastEncodeSample(s[k], mean, scale)) { FastSurvivorIsClose(x, mean, scale); }
    }
  }

  lemma FastMasked(mean: real, scale: real)
    requires scale > 0.0
    ensures FastEncodeSample(Masked, mean, scale) == 0
  {
  }

  // ------------------------------------------------------------------------------------------------
  // Four registers of eight integers become one of 32 bytes

  type Bytes = seq<uint8>

  /** A register of eight 32-bit words, each of four bytes. */
  predicate Words(r: seq<Bytes>) {
    |r| == 8 && forall w :: 0 <= w < 8 ==> |r[w]| == 4
  }

  /** Integers from 0 to 255 in the eight words. */
  type Ints = v: seq<uint8> | |v| == 8 witness [0, 0, 0, 0, 0, 0, 0, 0]

  const NONE: Bytes := [0, 0, 0, 0]

  /** Low bytes of the low half to word 0, of the high half to word 5; zeros elsewhere. */
  function ShuffleOuter(v: Ints): (r: seq<Bytes>)
    ensures Words(r)
  {
    [v[..4], NONE, NONE, NONE, NONE, v[4..], NONE, NONE]
  }

  /** Low bytes of the low half to word 2, of the high half to word 7. */
  function ShuffleInner(v: Ints): (r: seq<Bytes>)
    ensures Words(r)
  {
    [NONE, NONE, v[..4], NONE, NONE, NONE, NONE, v[4..]]
  }

  /** Words from x or, where the bit of the control is set, from y. */
  function Blend(x: seq<Bytes>, y: seq<Bytes>, control: seq<bool>): (r: seq<Bytes>)
    requires Words(x) && Words(y) && |control| == 8
    ensures Words(r)
  {
    [if control[0] then y[0] else x[0], if control[1] then y[1] else x[1], if control[2] then y[2] else x[2],
     if control[3] then y[3] else x[3], if control[4] then y[4] else x[4], if control[5] then y[5] else x[5],
     if control[6] then y[6] else x[6], if control[7] then y[7] else x[7]]
  }

  function SwapLanes(x: seq<Bytes>): (r: seq<Bytes>)
    requires Words(x)
    ensures Words(r)
  {
    [x[4], x[5], x[6], x[7], x[0], x[1], x[2], x[3]]
  }

  function Extract(a: Ints, b: Ints, c: Ints, d: Ints): (r: seq<Bytes>)
    ensures Words(r)
  {
    var upper := [false, false, true, true, false, false, true, true];
    var ab := Blend(ShuffleOuter(a), ShuffleInner(b), upper);
    var cd := Blend(ShuffleOuter(c), ShuffleInner(d), upper);
    var t := Blend(ab, cd, [false, false, false, false, true, true, true, true]);
    var u := SwapLanes(Blend(ab, cd, [true, true, true, true, false, false, false, false]));
    Blend(t, u, [false, true, false, true, true, false, true, false])
  }

  /** The permutations put the bytes in order. */
  lemma ExtractsInOrder(a: Ints, b: Ints, c: Ints, d: Ints)
    ensures Extract(a, b, c, d) == [a[..4], a[4..], b[..4], b[4..], c[..4], c[4..], d[..4], d[4..]]
  {
  }

  lemma ExtractedByte(v: seq<Ints>, q: nat, k: nat)
    requires |v| == 4 && q < 4 && k < 8
    ensures Extract(v[0], v[1], v[2], v[3])[2 * q + k / 4][k % 4] == v[q][k]
  {
    hide Extract;
    ExtractsInOrder(v[0], v[1], v[2], v[3]);
    if k < 4 { assert v[q][..4][k] == v[q][k]; } else { assert v[q][4..][k - 4] == v[q][k]; }
  }

  // ------------------------------------------------------------------------------------------------
  // Third kernel

  /** One lane: scale, mask, clamp, convert. */
  function EncodeLane(x: real, m: int, off: real, scal: real): uint8 {
    var y := Clamp(AndMask((x - off) * scal, m));
    RoundEvenInRange(y);
    RoundEven(y)
  }

  lemma EncodeLaneIs(x: real, m: int, off: real, scal: real, s: Sample, mean: real, scale: real)
    requires Stores(x, m, s) && scale > 0.0 && off == Offset(mean, scale) && scal == 1.0 / scale
    ensures EncodeLane(x, m, off, scal) == FastEncodeSample(s, mean, scale)
  {
    hide Offset, RoundEven, Clamp;
    match s
    case Masked => ClampZero();
    case Valid(v) =>
      Reciprocal(x - off, scale);
      assert (x - off) * scal == scal * (x - off);
      var y := AndMask((x - off) * scal, m);
      assert y == Position(v, mean, scale);
      EncodeLaneRounds(x, m, off, scal);
      assert FastEncodeSample(s, mean, scale) == RoundEven(Clamp(Position(v, mean, scale)));
  }

  lemma EncodeLaneRounds(x: real, m: int, off: real, scal: real)
    ensures EncodeLane(x, m, off, scal) == RoundEven(Clamp(AndMask((x - off) * scal, m)))
  {
  }

  lemma ClampZero()
    ensures RoundEven(Clamp(0.0)) == 0
  {
  }

  function EncodeLanes(data: array2<real>, mask: array2<int>, u: nat, at: nat, off: Lanes, scal: Lanes): Ints
    requires data.Length0 == mask.Length0 && data.Length1 == mask.Length1 && u < data.Length0 && at + 8 <= data.Length1
    reads data, mask
  {
    [EncodeLane(data[u, at], mask[u, at], off[0], scal[0]), EncodeLane(data[u, at + 1], mask[u, at + 1], off[1], scal[1]),
     EncodeLane(data[u, at + 2], mask[u, at + 2], off[2], scal[2]), EncodeLane(data[u, at + 3], mask[u, at + 3], off[3], scal[3]),
     EncodeLane(data[u, at + 4], mask[u, at + 4], off[4], scal[4]), EncodeLane(data[u, at + 5], mask[u, at + 5], off[5], scal[5]),
     EncodeLane(data[u, at + 6], mask[u, at + 6], off[6], scal[6]), EncodeLane(data[u, at + 7], mask[u, at + 7], off[7], scal[7])]
  }

  lemma EncodeLanesAt(data: array2<real>, mask: array2<int>, u: nat, at: nat, off: Lanes, scal: Lanes, k: nat)
    requires data.Length0 == mask.Length0 && data.Length1 == mask.Length1 && u < data.Length0 && at + 8 <= data.Length1 && k < 8
    ensures EncodeLanes(data, mask, u, at, off, scal)[k] == EncodeLane(data[u, at + k], mask[u, at + k], off[k], scal[k])
  {
    hide EncodeLane;
  }

  /** The byte of output sample j of packet b in row u. */
  predicate FastEncoded(inp: Input, d: uint8, root: real -> real, u: nat, b: nat, j: nat)
    requires ValidInput(inp) && u < |inp.rows| && b < inp.np && j < 2 * inp.nq
  {
    var s := WholeBlock(inp, b);
    DecScale(s, root) > 0.0 && d == FastEncodeSample(Pixel(inp, u, b, j), Mean(s), DecScale(s, root))
  }

  predicate BlockEncoded(inp: Input, out: array2<uint8>, root: real -> real, u: nat, b: nat)
    requires FastInput(inp) && u < |inp.rows| && b < inp.np && out.Length0 == |inp.rows| && out.Length1 == HalfRow(inp)
    reads out
  {
    forall j :: 0 <= j < 16 ==> ByteEncoded(inp, out, root, u, b, j)
  }

  predicate ByteEncoded(inp: Input, out: array2<uint8>, root: real -> real, u: nat, b: nat, j: nat)
    requires FastInput(inp) && u < |inp.rows| && b < inp.np && j < 16 && out.Length0 == |inp.rows| && out.Length1 == HalfRow(inp)
    reads out
  {
    16 * b + j < out.Length1 && FastEncoded(inp, out[u, 16 * b + j], root, u, b, j)
  }

  /** Offset and reciprocal scale of packet b, in every lane. */
  predicate ScaleLanes(inp: Input, b: nat, root: real -> real, off: Lanes, scal: Lanes)
    requires ValidInput(inp) && b < inp.np
  {
    var s := WholeBlock(inp, b);
    && DecScale(s, root) > 0.0
    && forall k :: 0 <= k < 8 ==> off[k] == Offset(Mean(s), DecScale(s, root)) && scal[k] == 1.0 / DecScale(s, root)
  }

  /** Eight lanes of packet b. */
  lemma LanesEncoded(inp: Input, data: array2<real>, mask: array2<int>, root: real -> real, u: nat, b: nat, half: nat,
                     off: Lanes, scal: Lanes, k: nat)
    requires FastInput(inp) && Fits(inp, data, mask) && u < |inp.rows| && b < inp.np && half < 2 && k < 8
    requires BlockStored(inp, data, mask, u, b) && ScaleLanes(inp, b, root, off, scal) && 16 * b + 16 <= HalfRow(inp)
    ensures FastEncoded(inp, EncodeLanes(data, mask, u, 16 * b + 8 * half, off, scal)[k], root, u, b, 8 * half + k)
  {
    hide EncodeLanes, EncodeLane, Pixel, Stores, At, HalfRow, WholeBlock, DecScale, Mean, Offset, FastEncodeSample;
    var j := 8 * half + k;
    PixelIs(inp, u, b, j);
    assert PixelAt(inp, data, mask, u, b, j, true);
    EncodeLanesAt(data, mask, u, 16 * b + 8 * half, off, scal, k);
    var i, s := 16 * b + j, WholeBlock(inp, b);
    EncodeLaneIs(data[u, i], mask[u, i], off[k], scal[k], Pixel(inp, u, b, j), Mean(s), DecScale(s, root));
  }

  /** Thirty-two bytes of row u. */
  method StoreWords(out: array2<uint8>, u: nat, at: nat, r: seq<Bytes>)
    requires Words(r) && u < out.Length0 && at + 32 <= out.Length1
    modifies out
    ensures forall m :: at <= m < at + 32 ==> out[u, m] == r[(m - at) / 4][(m - at) % 4]
    ensures forall u', i' :: 0 <= u' < out.Length0 && 0 <= i' < out.Length1 && SameElsewhere(u, at, at + 32, u', i') ==>
                               out[u', i'] == old(out[u', i'])
  {
    forall m | at <= m < at + 32 { out[u, m] := r[(m - at) / 4][(m - at) % 4]; }
  }

  /** Two output packets of row u. */
  method Kernel3a(inp: Input, out: array2<uint8>, data: array2<real>, mask: array2<int>, root: real -> real, u: nat, b: nat,
                  off: seq<Lanes>, scal: seq<Lanes>)
    requires FastInput(inp) && Fits(inp, data, mask) && u < |inp.rows| && b + 1 < inp.np
    requires out.Length0 == |inp.rows| && out.Length1 == HalfRow(inp)
    requires BlockStored(inp, data, mask, u, b) && BlockStored(inp, data, mask, u, b + 1)
    requires |off| == |scal| == 2 && ScaleLanes(inp, b, root, off[0], scal[0]) && ScaleLanes(inp, b + 1, root, off[1], scal[1])
    modifies out
    ensures BlockEncoded(inp, out, root, u, b) && BlockEncoded(inp, out, root, u, b + 1)
    ensures forall u', i' :: 0 <= u' < out.Length0 && 0 <= i' < out.Length1 && SameElsewhere(u, 16 * b, 16 * b + 32, u', i') ==>
                               out[u', i'] == old(out[u', i'])
  {
    hide EncodeLanes, Extract, BlockStored, ScaleLanes, HalfRow, At, FastEncoded;
    BlockInside(inp, b + 1);
    var at := 16 * b;
    var x0, x1 := EncodeLanes(data, mask, u, at, off[0], scal[0]), EncodeLanes(data, mask, u, at + 8, off[0], scal[0]);
    var x2, x3 := EncodeLanes(data, mask, u, at + 16, off[1], scal[1]), EncodeLanes(data, mask, u, at + 24, off[1], scal[1]);
    ghost var v := [x0, x1, x2, x3];
    forall q, k | 0 <= q < 4 && 0 <= k < 8 ensures FastEncoded(inp, v[q][k], root, u, b + q / 2, 8 * (q % 2) + k) {
      LanesEncoded(inp, data, mask, root, u, b + q / 2, q % 2, off[q / 2], scal[q / 2], k);
    }
    var r := Extract(x0, x1, x2, x3);
    StoreWords(out, u, at, r);
    forall q, k | 0 <= q < 4 && 0 <= k < 8 ensures out[u, at + 8 * q + k] == v[q][k] {
      ExtractedByte(v, q, k);
      WordIndex(q, k);
    }
    forall j | 0 <= j < 16 ensures ByteEncoded(inp, out, root, u, b, j) {
      LaneOf(0, j);
      assert out[u, at + 8 * (j / 8) + j % 8] == v[j / 8][j % 8];
      assert FastEncoded(inp, v[j / 8][j % 8], root, u, b + j / 8 / 2, 8 * (j / 8 % 2) + j % 8);
    }
    var next := b + 1;
    forall j | 0 <= j < 16 ensures ByteEncoded(inp, out, root, u, next, j) {
      LaneOf(1, j);
      var q := 2 + j / 8;
      assert out[u, at + 8 * q + j % 8] == v[q][j % 8];
      assert FastEncoded(inp, v[q][j % 8], root, u, b + q / 2, 8 * (q % 2) + j % 8);
    }
  }

  /** Sample j of the h-th packet is in lane j%8 of register 2h+j/8. */
  lemma LaneOf(h: nat, j: nat)
    requires h < 2 && j < 16
    ensures var q := 2 * h + j / 8; q < 4 && q / 2 == h && 8 * (q % 2) + j % 8 == j && 8 * q + j % 8 == 16 * h + j
  {
  }

  lemma WordIndex(q: nat, k: nat)
    requires q < 4 && k < 8
    ensures (8 * q + k) / 4 == 2 * q + k / 4 && (8 * q + k) % 4 == k % 4
  {
  }

  /** Packets of rows below u, and packets below b of row u. */
  ghost predicate EncodedBelow(inp: Input, out: array2<uint8>, root: real -> real, u: nat, b: nat)
    requires FastInput(inp) && out.Length0 == |inp.rows| && out.Length1 == HalfRow(inp)
    reads out
  {
    forall u', b' :: 0 <= u' < |inp.rows| && 0 <= b' < inp.np && (u' < u || (u' == u && b' < b)) ==>
                       BlockEncoded(inp, out, root, u', b')
  }

  /** The next two packets, leaving the ones before as they are. */
  method EncodePair(inp: Input, out: array2<uint8>, data: array2<real>, mask: array2<int>, root: real -> real, u: nat, b: nat,
                    off: seq<Lanes>, scal: seq<Lanes>)
    requires FastInput(inp) && Fits(inp, data, mask) && u < |inp.rows| && b + 1 < inp.np
    requires out.Length0 == |inp.rows| && out.Length1 == HalfRow(inp)
    requires BlockStored(inp, data, mask, u, b) && BlockStored(inp, data, mask, u, b + 1)
    requires |off| == |scal| == 2 && ScaleLanes(inp, b, root, off[0], scal[0]) && ScaleLanes(inp, b + 1, root, off[1], scal[1])
    requires EncodedBelow(inp, out, root, u, b)
    modifies out
    ensures EncodedBelow(inp, out, root, u, b + 2)
  {
    hide BlockStored, ScaleLanes, HalfRow, At, FastEncoded;
    Kernel3a(inp, out, data, mask, root, u, b, off, scal);
    forall u', b' | 0 <= u' < |inp.rows| && 0 <= b' < inp.np && (u' < u || (u' == u && b' < b))
      ensures BlockEncoded(inp, out, root, u', b')
    {
      assert old(BlockEncoded(inp, out, root, u', b'));
      forall j | 0 <= j < 16 ensures ByteEncoded(inp, out, root, u', b', j) {
        assert old(ByteEncoded(inp, out, root, u', b', j));
        assert SameElsewhere(u, 16 * b, 16 * b + 32, u', 16 * b' + j);
      }
    }
  }

  /** What the second kernel has left for packet b. */
  predicate PacketFinished(inp: Input, root: real -> real, encOff: seq<real>, encScal: seq<real>, b: nat)
    requires ValidInput(inp) && b < inp.np
  {
    var s := WholeBlock(inp, b);
    && b < |encOff| && b < |encScal| && DecScale(s, root) > 0.0
    && encOff[b] == Offset(Mean(s), DecScale(s, root)) && encScal[b] == 1.0 / DecScale(s, root)
  }

  lemma PacketLanes(inp: Input, root: real -> real, encOff: seq<real>, encScal: seq<real>, at: nat, n: nat)
    requires ValidInput(inp) && at + 8 <= inp.np && n < 8 && |encOff| == |encScal| == inp.np
    requires PacketFinished(inp, root, encOff, encScal, at + n)
    ensures ScaleLanes(inp, at + n, root, Get(Upsample(LoadLanes(encOff, at)), n), Get(Upsample(LoadLanes(encScal, at)), n))
  {
    hide Get, Upsample, Mean, DecScale, Offset, WholeBlock;
    forall k | 0 <= k < 8
      ensures Get(Upsample(LoadLanes(encOff, at)), n)[k] == encOff[at + n]
      ensures Get(Upsample(LoadLanes(encScal, at)), n)[k] == encScal[at + n]
    {
      Broadcasts(LoadLanes(encOff, at), n, k);
      Broadcasts(LoadLanes(encScal, at), n, k);
    }
  }

  /** Eight packets of row u. */
  method Kernel3b(inp: Input, out: array2<uint8>, data: array2<real>, mask: array2<int>, encOff: array<real>,
                  encScal: array<real>, root: real -> real, u: nat, i: nat)
    requires FastInput(inp) && Fits(inp, data, mask) && u < |inp.rows| && 8 * i + 8 <= inp.np
    requires out.Length0 == |inp.rows| && out.Length1 == HalfRow(inp) && encOff.Length == encScal.Length == inp.np
    requires forall b :: 0 <= b < inp.np ==> BlockStored(inp, data, mask, u, b)
    requires forall b :: 0 <= b < inp.np ==> PacketFinished(inp, root, encOff[..], encScal[..], b)
    requires EncodedBelow(inp, out, root, u, 8 * i)
    modifies out
    ensures EncodedBelow(inp, out, root, u, 8 * i + 8)
  {
    hide BlockStored, ScaleLanes, EncodedBelow, PacketFinished, Get, Upsample, LoadLanes, HalfRow;
    var w1, w2 := Upsample(LoadLanes(encOff[..], 8 * i)), Upsample(LoadLanes(encScal[..], 8 * i));
    for n := 0 to 4
      invariant EncodedBelow(inp, out, root, u, 8 * i + 2 * n)
      invariant forall b :: 0 <= b < inp.np ==> BlockStored(inp, data, mask, u, b)
    {
      var b := 8 * i + 2 * n;
      PacketLanes(inp, root, encOff[..], encScal[..], 8 * i, 2 * n);
      PacketLanes(inp, root, encOff[..], encScal[..], 8 * i, 2 * n + 1);
      var off, scal := [Get(w1, 2 * n), Get(w1, 2 * n + 1)], [Get(w2, 2 * n), Get(w2, 2 * n + 1)];
      EncodePair(inp, out, data, mask, root, u, b, off, scal);
    }
  }

  /** The third kernel. */
  method FastKernel3(inp: Input, out: array2<uint8>, data: array2<real>, mask: array2<int>, encOff: array<real>,
                     encScal: array<real>, root: real -> real)
    requires FastInput(inp) && Fits(inp, data, mask)
    requires out.Length0 == |inp.rows| && out.Length1 == HalfRow(inp) && encOff.Length == encScal.Length == inp.np
    requires forall u, b :: 0 <= u < |inp.rows| && 0 <= b < inp.np ==> BlockStored(inp, data, mask, u, b)
    requires forall b :: 0 <= b < inp.np ==> PacketFinished(inp, root, encOff[..], encScal[..], b)
    modifies out
    ensures EncodedBelow(inp, out, root, |inp.rows|, 0)
  {
    hide BlockStored, BlockEncoded, PacketFinished, HalfRow;
    for u := 0 to |inp.rows|
      invariant EncodedBelow(inp, out, root, u, 0)
      invariant forall u', b :: 0 <= u' < |inp.rows| && 0 <= b < inp.np ==> BlockStored(inp, data, mask, u', b)
    {
      for i := 0 to inp.np / 8
        invariant EncodedBelow(inp, out, root, u, 8 * i)
        invariant forall u', b :: 0 <= u' < |inp.rows| && 0 <= b < inp.np ==> BlockStored(inp, data, mask, u', b)
      {
        Kernel3b(inp, out, data, mask, encOff, encScal, root, u, i);
      }
    }
  }

  // ------------------------------------------------------------------------------------------------
  // All three

  /** The byte is that of the reference, or one less at a tie above an even byte. */
  predicate ReferenceButTies(inp: Input, d: uint8, root: real -> real, u: nat, b: nat, j: nat)
    requires ValidInput(inp) && u < |inp.rows| && b < inp.np && j < 2 * inp.nq
  {
    var s, x := WholeBlock(inp, b), Pixel(inp, u, b, j);
    && DecScale(s, root) > 0.0
    && d == EncodeSample(x, Mean(s), DecScale(s, root)) - if EvenTie(x, Mean(s), DecScale(s, root)) then 1 else 0
  }

  lemma FastIsReferenceButTies(inp: Input, d: uint8, root: real -> real, u: nat, b: nat, j: nat)
    requires ValidInput(inp) && u < |inp.rows| && b < inp.np && j < 2 * inp.nq
    ensures FastEncoded(inp, d, root, u, b, j) <==> ReferenceButTies(inp, d, root, u, b, j)
  {
    hide Mean, DecScale, EncodeSample, FastEncodeSample, EvenTie, Pixel;
    var s := WholeBlock(inp, b);
    if DecScale(s, root) > 0.0 { DifferAtTies(Pixel(inp, u, b, j), Mean(s), DecScale(s, root)); }
  }

  /** The vectorized downsampling of one coarse frequency: offsets and scales of the reference, and its bytes but for ties. */
  method FastDownsample(inp: Input, out: array2<uint8>, offsets: array<real>, scales: array<real>, root: real -> real)
    requires FastInput(inp) && IsRoot(root)
    requires out.Length0 == |inp.rows| && out.Length1 == HalfRow(inp)
    requires offsets.Length == scales.Length == inp.np && offsets != scales
    modifies out, offsets, scales
    ensures forall b :: 0 <= b < inp.np ==>
                          var s := WholeBlock(inp, b);
                          && scales[b] == DecScale(s, root) && offsets[b] == Offset(Mean(s), DecScale(s, root))
                          && FitsBlock(s, offsets[b], scales[b])
    ensures forall u, b, j :: 0 <= u < |inp.rows| && 0 <= b < inp.np && 0 <= j < 16 ==>
                                OutputByte(inp, out, root, u, b, j)
  {
    hide Mean, Count, DecScale, WholeBlock, PixelsState, Offset, BlockStored, ReferenceButTies, FastEncoded, FitsBlock;
    var data := new real[|inp.rows|, HalfRow(inp)];
    var mask := new int[|inp.rows|, HalfRow(inp)];
    var w2 := new real[inp.np];
    FastKernel1(inp, data, mask, offsets, scales);
    FastKernel2(inp, data, mask, offsets, scales, w2, root);
    StoredBlocks(inp, data, mask);
    forall b | 0 <= b < inp.np ensures PacketFinished(inp, root, offsets[..], w2[..], b) {
      assert Finished(WholeBlock(inp, b), root, offsets[b], scales[b], w2[b]);
    }
    FastKernel3(inp, out, data, mask, offsets, w2, root);
    forall u, b, j | 0 <= u < |inp.rows| && 0 <= b < inp.np && 0 <= j < 16 ensures OutputByte(inp, out, root, u, b, j) {
      assert BlockEncoded(inp, out, root, u, b);
      assert ByteEncoded(inp, out, root, u, b, j);
      FastIsReferenceButTies(inp, out[u, 16 * b + j], root, u, b, j);
    }
  }

  predicate OutputByte(inp: Input, out: array2<uint8>, root: real -> real, u: nat, b: nat, j: nat)
    requires FastInput(inp) && u < |inp.rows| && b < inp.np && j < 16 && out.Length0 == |inp.rows| && out.Length1 == HalfRow(inp)
    reads out
  {
    16 * b + j < out.Length1 && ReferenceButTies(inp, out[u, 16 * b + j], root, u, b, j)
  }
}
