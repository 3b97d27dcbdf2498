/**
  The vectorized downsampling kernels, over the reals: they leave the same intensities, masks, counts, means, offsets
  and scales as the reference kernels, and bytes that differ from the reference bytes only where the rounding is a
  tie.  They need packets of sixteen samples and rows of a multiple of 256 samples.
*/
module FastKernels {
  import opened BitMatrix
  import opened DownsampleKernels
  import opened EncodeBound
  import opened FastLanes

  /** Sixteen samples to a packet, and a whole number of panels of eight output packets. */
  predicate FastInput(inp: Input) {
    ValidInput(inp) && inp.nq == 8 && inp.np % 8 == 0
  }

  // ------------------------------------------------------------------------------------------------
  // Sixteen pairs of bytes

  /** A 16-bit lane: its low byte comes first. */
  function Lane16(d0: uint8, d1: uint8): nat { d0 + 256 * d1 }

  /** The low byte plus the high byte, in sixteen bits. */
  function ByteSum(v: nat): nat { (v % 256 + v / 256) % 65536 }

  function SignExtend(v: nat): int {
    if v < 32768 then v else v - 65536
  }

  /** The comparison against 0x00 and 0xff: all ones or all zeros in each byte. */
  predicate Invalid(d: uint8) { d == 0 || d == 255 }

  function MaskByte(ones: bool): uint8 { if ones then 255 else 0 }

  /** Each byte is ORed with the other byte of its lane, and complemented. */
  function LaneMask(d0: uint8, d1: uint8): int {
    var low, high := Invalid(d0) || Invalid(d1), Invalid(d1) || Invalid(d0);
    SignExtend(Lane16(MaskByte(!low), MaskByte(!high)))
  }

  lemma PairLane(d0: uint8, d1: uint8)
    ensures SignExtend(ByteSum(Lane16(d0, d1))) == d0 + d1
    ensures LaneMask(d0, d1) == if Sentinel(d0) || Sentinel(d1) then 0 else -1
  {
    assert (d0 + 256 * d1) % 256 == d0 && (d0 + 256 * d1) / 256 == d1;
  }

  /** AND with a mask lane. */
  function AndMask(x: real, m: int): real { if m == 0 then 0.0 else x }

  /** One output sample: decoded average and mask. */
  function DataLane(d0: uint8, d1: uint8, offset: real, scale2: real): real {
    AndMask(scale2 * (SignExtend(ByteSum(Lane16(d0, d1))) as real) + offset, LaneMask(d0, d1))
  }

  lemma LaneStores(d0: uint8, d1: uint8, scale: real, offset: real)
    ensures Stores(DataLane(d0, d1, offset, 0.5 * scale), LaneMask(d0, d1), PairSample(d0, d1, scale, offset))
  {
    hide SignExtend, ByteSum, Lane16, LaneMask;
    PairLane(d0, d1);
  }

  function DataLanes(d: seq<uint8>, at: nat, offset: Lanes, scale2: Lanes): Lanes
    requires at + 16 <= |d|
  {
    [DataLane(d[at], d[at + 1], offset[0], scale2[0]), DataLane(d[at + 2], d[at + 3], offset[1], scale2[1]),
     DataLane(d[at + 4], d[at + 5], offset[2], scale2[2]), DataLane(d[at + 6], d[at + 7], offset[3], scale2[3]),
     DataLane(d[at + 8], d[at + 9], offset[4], scale2[4]), DataLane(d[at + 10], d[at + 11], offset[5], scale2[5]),
     DataLane(d[at + 12], d[at + 13], offset[6], scale2[6]), DataLane(d[at + 14], d[at + 15], offset[7], scale2[7])]
  }

  function MaskLanes(d: seq<uint8>, at: nat): (m: seq<int>)
    requires at + 16 <= |d|
    ensures |m| == 8
  {
    [LaneMask(d[at], d[at + 1]), LaneMask(d[at + 2], d[at + 3]), LaneMask(d[at + 4], d[at + 5]),
     LaneMask(d[at + 6], d[at + 7]), LaneMask(d[at + 8], d[at + 9]), LaneMask(d[at + 10], d[at + 11]),
     LaneMask(d[at + 12], d[at + 13]), LaneMask(d[at + 14], d[at + 15])]
  }

  lemma LanesAt(d: seq<uint8>, at: nat, offset: Lanes, scale2: Lanes, k: nat)
    requires at + 16 <= |d| && k < 8
    ensures DataLanes(d, at, offset, scale2)[k] == DataLane(d[at + 2 * k], d[at + 2 * k + 1], offset[k], scale2[k])
    ensures MaskLanes(d, at)[k] == LaneMask(d[at + 2 * k], d[at + 2 * k + 1])
  {
    hide DataLane, LaneMask;
  }

  /** Minus the sum of two masks: how many of the two are valid. */
  function CountLanes(m0: seq<int>, m1: seq<int>): Lanes
    requires |m0| == |m1| == 8
  {
    [(-(m0[0] + m1[0])) as real, (-(m0[1] + m1[1])) as real, (-(m0[2] + m1[2])) as real, (-(m0[3] + m1[3])) as real,
     (-(m0[4] + m1[4])) as real, (-(m0[5] + m1[5])) as real, (-(m0[6] + m1[6])) as real, (-(m0[7] + m1[7])) as real]
  }

  // ------------------------------------------------------------------------------------------------
  // Sums of sixteen samples, in the order of the lanes

  function One(x: Sample): real { if x.Valid? then 1.0 else 0.0 }

  function Value(x: Sample): real { if x.Valid? then x.x else 0.0 }

  function OnesTo(s: seq<Sample>, n: nat): real
    requires n <= |s|
  {
    if n == 0 then 0.0 else OnesTo(s, n - 1) + One(s[n - 1])
  }

  function ValuesTo(s: seq<Sample>, n: nat): real
    requires n <= |s|
  {
    if n == 0 then 0.0 else ValuesTo(s, n - 1) + Value(s[n - 1])
  }

  lemma {:induction false} SumsTo(s: seq<Sample>, n: nat)
    requires n <= |s|
    ensures Count(s[..n]) as real == OnesTo(s, n) && Sum(s[..n]) == ValuesTo(s, n)
  {
    if n > 0 {
      SumsTo(s, n - 1);
      assert s[..n][..n - 1] == s[..n - 1];
    }
  }

  lemma FourMore(s: seq<Sample>, n: nat)
    requires n + 4 <= |s|
    ensures OnesTo(s, n + 4) == OnesTo(s, n) + One(s[n]) + One(s[n + 1]) + One(s[n + 2]) + One(s[n + 3])
    ensures ValuesTo(s, n + 4) == ValuesTo(s, n) + Value(s[n]) + Value(s[n + 1]) + Value(s[n + 2]) + Value(s[n + 3])
    ensures OnesTo(s, 0) == 0.0 && ValuesTo(s, 0) == 0.0
  {
    hide One, Value;
    assert OnesTo(s, n + 2) == OnesTo(s, n) + One(s[n]) + One(s[n + 1]);
    assert ValuesTo(s, n + 2) == ValuesTo(s, n) + Value(s[n]) + Value(s[n + 1]);
  }

  lemma Sixteen(s: seq<Sample>)
    requires |s| == 16
    ensures OnesTo(s, 16) == One(s[0]) + One(s[1]) + One(s[2]) + One(s[3]) + One(s[4]) + One(s[5]) + One(s[6]) + One(s[7])
                             + One(s[8]) + One(s[9]) + One(s[10]) + One(s[11]) + One(s[12]) + One(s[13]) + One(s[14]) + One(s[15])
    ensures ValuesTo(s, 16) == Value(s[0]) + Value(s[1]) + Value(s[2]) + Value(s[3]) + Value(s[4]) + Value(s[5])
                               + Value(s[6]) + Value(s[7]) + Value(s[8]) + Value(s[9]) + Value(s[10]) + Value(s[11])
                               + Value(s[12]) + Value(s[13]) + Value(s[14]) + Value(s[15])
  {
    hide One, Value;
    FourMore(s, 0);
    FourMore(s, 4);
    FourMore(s, 8);
    FourMore(s, 12);
  }

  /** Two registers of eight samples, each stored with its mask, add up to the sums over the sixteen. */
  lemma LaneSums(s: seq<Sample>, x0: Lanes, x1: Lanes, m0: seq<int>, m1: seq<int>)
    requires |s| == 16 && |m0| == |m1| == 8
    requires forall k :: 0 <= k < 8 ==> Stores(x0[k], m0[k], s[k]) && Stores(x1[k], m1[k], s[8 + k])
    ensures LaneTotal(CountLanes(m0, m1)) == Count(s) as real && LaneTotal(Plus(x0, x1)) == Sum(s)
  {
    hide Count, Sum;
    Sixteen(s);
    SumsTo(s, 16);
    assert s[..16] == s;
    forall k | 0 <= k < 8
      ensures m0[k] as real == -One(s[k]) && m1[k] as real == -One(s[8 + k]) && x0[k] == Value(s[k]) && x1[k] == Value(s[8 + k])
    {
      assert Stores(x0[k], m0[k], s[k]) && Stores(x1[k], m1[k], s[8 + k]);
    }
    hide One, Value, Stores;
    var c := CountLanes(m0, m1);
    forall k | 0 <= k < 8 ensures c[k] == One(s[k]) + One(s[8 + k]) {
    }
  }

  // ------------------------------------------------------------------------------------------------
  // First kernel

  lemma {:induction false} RowPartAt(inp: Input, u: nat, b: nat, n: nat, j: nat)
    requires ValidInput(inp) && u < |inp.rows| && b < inp.np && j < n <= 2 * inp.nq
    ensures RowPart(inp, u, b, n)[j] == Pixel(inp, u, b, j)
  {
    hide Pixel;
    if j < n - 1 { RowPartAt(inp, u, b, n - 1, j); }
  }

  /** All sixteen output samples of packet b of row u are in place. */
  predicate BlockStored(inp: Input, data: array2<real>, mask: array2<int>, u: nat, b: nat)
    requires ValidInput(inp) && Fits(inp, data, mask) && u < |inp.rows| && b < inp.np
    reads data, mask
  {
    forall j :: 0 <= j < 2 * inp.nq ==> PixelAt(inp, data, mask, u, b, j, true)
  }

  /** The sixteen bytes pairs of output packet b. */
  function LoadBytes(inp: Input, u: nat, b: nat): (d: seq<uint8>)
    requires FastInput(inp) && u < |inp.rows| && b < inp.np
    ensures |d| == 32
  {
    BlockInside(inp, b);
    inp.rows[u][32 * b..32 * b + 32]
  }

  lemma BlockInside(inp: Input, b: nat)
    requires FastInput(inp) && b < inp.np
    ensures 16 * b + 16 <= HalfRow(inp)
  {
    AtIsProduct(inp.np, 16, 0);
  }

  lemma PixelIs(inp: Input, u: nat, b: nat, j: nat)
    requires FastInput(inp) && u < |inp.rows| && b < inp.np && j < 16
    ensures At(b, 16, j) == 16 * b + j
    ensures var d := LoadBytes(inp, u, b);
            var p := if j < 8 then 2 * b else 2 * b + 1;
            Pixel(inp, u, b, j) == PairSample(d[2 * j], d[2 * j + 1], inp.scales[p], inp.offsets[p])
  {
    hide At, PairSample;
    AtIsProduct(b, 16, j);
    BlockInside(inp, b);
    AtBound(b, inp.np, 16, j);
  }

  /** The lanes of a register, each stored with its mask, hold eight samples of the block. */
  lemma LanesStore(inp: Input, u: nat, b: nat, half: nat, offset: Lanes, scale2: Lanes, k: nat)
    requires FastInput(inp) && u < |inp.rows| && b < inp.np && half < 2 && k < 8
    requires offset[k] == inp.offsets[2 * b + half] && scale2[k] == 0.5 * inp.scales[2 * b + half]
    ensures var d := LoadBytes(inp, u, b);
            Stores(DataLanes(d, 16 * half, offset, scale2)[k], MaskLanes(d, 16 * half)[k], Pixel(inp, u, b, 8 * half + k))
  {
    hide DataLane, LaneMask, DataLanes, MaskLanes, LoadBytes, Pixel, PairSample, Stores;
    var d := LoadBytes(inp, u, b);
    LanesAt(d, 16 * half, offset, scale2, k);
    PixelIs(inp, u, b, 8 * half + k);
    var i := 16 * half + 2 * k;
    LaneStores(d[i], d[i + 1], inp.scales[2 * b + half], inp.offsets[2 * b + half]);
  }

  predicate SameElsewhere(u: nat, from: nat, to: nat, u': nat, i': nat) {
    !(u' == u && from <= i' < to)
  }

  /** Stores eight lanes of data and mask. */
  method StoreLanes(data: array2<real>, mask: array2<int>, u: nat, at: nat, x: Lanes, m: seq<int>)
    requires |m| == 8 && data.Length0 == mask.Length0 && data.Length1 == mask.Length1
    requires u < data.Length0 && at + 8 <= data.Length1
    modifies data, mask
    ensures forall k :: at <= k < at + 8 ==> data[u, k] == x[k - at] && mask[u, k] == m[k - at]
    ensures forall u', i' :: 0 <= u' < data.Length0 && 0 <= i' < data.Length1 && SameElsewhere(u, at, at + 8, u', i') ==>
                               data[u', i'] == old(data[u', i']) && mask[u', i'] == old(mask[u', i'])
  {
    forall k | at <= k < at + 8 { data[u, k] := x[k - at]; }
    forall k | at <= k < at + 8 { mask[u, k] := m[k - at]; }
  }

  /** The broadcast offsets and half scales that packet b needs. */
  predicate Broadcast(inp: Input, b: nat, n: nat, offset: Upsample8, scale2: Upsample8)
    requires FastInput(inp) && b < inp.np
  {
    forall k :: 0 <= k < 8 ==> BroadcastAt(inp, b, n, offset, scale2, k)
  }

  predicate BroadcastAt(inp: Input, b: nat, n: nat, offset: Upsample8, scale2: Upsample8, k: nat)
    requires FastInput(inp) && b < inp.np && k < 8
  {
    var n2 := 2 * n % 8;
    && Get(offset, n2)[k] == inp.offsets[2 * b] && Get(offset, n2 + 1)[k] == inp.offsets[2 * b + 1]
    && Get(scale2, n2)[k] == 0.5 * inp.scales[2 * b] && Get(scale2, n2 + 1)[k] == 0.5 * inp.scales[2 * b + 1]
  }

  /** The register holds parts of the count and of the sum of packet b of row u. */
  ghost predicate PartialSums(inp: Input, u: nat, b: nat, count: Lanes, mean: Lanes)
    requires FastInput(inp) && u < |inp.rows| && b < inp.np
  {
    var s := RowPart(inp, u, b, 16);
    LaneTotal(count) == Count(s) as real && LaneTotal(mean) == Sum(s)
  }

  /** One output packet: decode, average, store, and pass on the partial sums. */
  method Kernel1a(inp: Input, data: array2<real>, mask: array2<int>, u: nat, b: nat, n: nat,
                  offset: Upsample8, scale2: Upsample8) returns (count: Lanes, mean: Lanes)
    requires FastInput(inp) && Fits(inp, data, mask) && u < |inp.rows| && b < inp.np
    requires Broadcast(inp, b, n, offset, scale2)
    modifies data, mask
    ensures BlockStored(inp, data, mask, u, b) && PartialSums(inp, u, b, count, mean)
    ensures forall u', i' :: 0 <= u' < data.Length0 && 0 <= i' < data.Length1 && SameElsewhere(u, 16 * b, 16 * b + 16, u', i') ==>
                               data[u', i'] == old(data[u', i']) && mask[u', i'] == old(mask[u', i'])
  {
    hide DataLanes, MaskLanes, LoadBytes, Get, Pixel, Count, Sum, LaneTotal, CountLanes, Plus, Stores, HalfRow, At;
    BlockInside(inp, b);
    var n2 := 2 * n % 8;
    var d := LoadBytes(inp, u, b);
    var x0, m0 := DataLanes(d, 0, Get(offset, n2), Get(scale2, n2)), MaskLanes(d, 0);
    var x1, m1 := DataLanes(d, 16, Get(offset, n2 + 1), Get(scale2, n2 + 1)), MaskLanes(d, 16);
    StoreLanes(data, mask, u, 16 * b, x0, m0);
    StoreLanes(data, mask, u, 16 * b + 8, x1, m1);
    forall k | 0 <= k < 8
      ensures Stores(x0[k], m0[k], Pixel(inp, u, b, k)) && Stores(x1[k], m1[k], Pixel(inp, u, b, 8 + k))
    {
      assert BroadcastAt(inp, b, n, offset, scale2, k);
      LanesStore(inp, u, b, 0, Get(offset, n2), Get(scale2, n2), k);
      LanesStore(inp, u, b, 1, Get(offset, n2 + 1), Get(scale2, n2 + 1), k);
    }
    SixteenStored(inp, data, mask, u, b, x0, x1, m0, m1);
    count := CountLanes(m0, m1);
    mean := Plus(x0, x1);
  }

  lemma SixteenStored(inp: Input, data: array2<real>, mask: array2<int>, u: nat, b: nat,
                      x0: Lanes, x1: Lanes, m0: seq<int>, m1: seq<int>)
    requires FastInput(inp) && Fits(inp, data, mask) && u < |inp.rows| && b < inp.np && 16 * b + 16 <= HalfRow(inp)
    requires |m0| == |m1| == 8
    requires forall k :: 16 * b <= k < 16 * b + 8 ==> data[u, k] == x0[k - 16 * b] && mask[u, k] == m0[k - 16 * b]
    requires forall k :: 16 * b + 8 <= k < 16 * b + 16 ==>
                           data[u, k] == x1[k - (16 * b + 8)] && mask[u, k] == m1[k - (16 * b + 8)]
    requires forall k :: 0 <= k < 8 ==>
                           Stores(x0[k], m0[k], Pixel(inp, u, b, k)) && Stores(x1[k], m1[k], Pixel(inp, u, b, 8 + k))
    ensures BlockStored(inp, data, mask, u, b) && PartialSums(inp, u, b, CountLanes(m0, m1), Plus(x0, x1))
  {
    hide Pixel, Count, Sum, LaneTotal, CountLanes, Plus, Stores, HalfRow, At;
    forall j | 0 <= j < 16 ensures PixelAt(inp, data, mask, u, b, j, true) {
      PixelIs(inp, u, b, j);
      if j < 8 {
        assert data[u, 16 * b + j] == x0[j];
      } else {
        assert data[u, 16 * b + j] == x1[j - 8];
        assert Stores(x1[j - 8], m1[j - 8], Pixel(inp, u, b, 8 + (j - 8)));
      }
    }
    var s := RowPart(inp, u, b, 16);
    forall k | 0 <= k < 8 ensures Stores(x0[k], m0[k], s[k]) && Stores(x1[k], m1[k], s[8 + k]) {
      RowPartAt(inp, u, b, 16, k);
      RowPartAt(inp, u, b, 16, 8 + k);
    }
    LaneSums(s, x0, x1, m0, m1);
  }

  /** Packets 8i+4h to 8i+4h+3, whose offsets and scales are in the two upsamplers. */
  lemma PanelBroadcasts(inp: Input, i: nat, n: nat)
    requires FastInput(inp) && 8 * i + n < inp.np && n < 8
    ensures 16 * i + 8 * (n / 4) + 8 <= |inp.offsets|
    ensures Broadcast(inp, 8 * i + n, n, Upsample(LoadLanes(inp.offsets, 16 * i + 8 * (n / 4))),
                      Upsample(Times(LoadLanes(inp.scales, 16 * i + 8 * (n / 4)), 0.5)))
  {
    hide Get, Upsample, LoadLanes, Times;
    PanelInside(inp, i, n);
    var at, n2, b := 16 * i + 8 * (n / 4), 2 * n % 8, 8 * i + n;
    assert at + n2 == 2 * b;
    var offset, scale2 := Upsample(LoadLanes(inp.offsets, at)), Upsample(Times(LoadLanes(inp.scales, at), 0.5));
    forall k | 0 <= k < 8 ensures BroadcastAt(inp, b, n, offset, scale2, k)
    {
      BroadcastLane(inp.offsets, at, n2, k);
      BroadcastLane(inp.offsets, at, n2 + 1, k);
      BroadcastLane(inp.scales, at, n2, k);
      BroadcastLane(inp.scales, at, n2 + 1, k);
    }
  }

  lemma BroadcastLane(p: seq<real>, at: nat, n: nat, k: nat)
    requires at + 8 <= |p| && n < 8 && k < 8
    ensures Get(Upsample(LoadLanes(p, at)), n)[k] == p[at + n]
    ensures Get(Upsample(Times(LoadLanes(p, at), 0.5)), n)[k] == 0.5 * p[at + n]
  {
    hide Get, Upsample;
    Broadcasts(LoadLanes(p, at), n, k);
    Broadcasts(Times(LoadLanes(p, at), 0.5), n, k);
  }

  lemma PanelInside(inp: Input, i: nat, n: nat)
    requires FastInput(inp) && 8 * i + n < inp.np && n < 8
    ensures 16 * i + 16 <= 2 * inp.np && 16 * i + 8 * (n / 4) + 2 * n % 8 == 2 * (8 * i + n) && 2 * n % 8 + 1 < 8
  {
  }

  /** Blocks of row u that are stored: those of panel i as far as n. */
  ghost predicate PanelStored(inp: Input, data: array2<real>, mask: array2<int>, u: nat, i: nat, n: nat)
    requires FastInput(inp) && Fits(inp, data, mask) && u <= |inp.rows|
    reads data, mask
  {
    forall u', b :: 0 <= u' < |inp.rows| && 0 <= b < inp.np && (u' < u || (u' == u && b < 8 * i + n)) ==>
                      BlockStored(inp, data, mask, u', b)
  }

  predicate PacketLoaded(inp: Input, i: nat, n: nat, offset: Upsample8, scale2: Upsample8)
    requires FastInput(inp)
  {
    8 * i + n < inp.np && Broadcast(inp, 8 * i + n, n, offset, scale2)
  }

  /** The offsets and half scales of four packets. */
  method LoadUpsamplers(inp: Input, i: nat, from: nat) returns (offset: Upsample8, scale2: Upsample8)
    requires FastInput(inp) && 8 * i + 8 <= inp.np && (from == 0 || from == 4)
    ensures forall m :: from <= m < from + 4 ==> PacketLoaded(inp, i, m, offset, scale2)
  {
    var at := 16 * i + 2 * from;
    offset, scale2 := Upsample(LoadLanes(inp.offsets, at)), Upsample(Times(LoadLanes(inp.scales, at), 0.5));
    forall m | from <= m < from + 4 ensures PacketLoaded(inp, i, m, offset, scale2) {
      PanelBroadcasts(inp, i, m);
      assert 8 * (m / 4) == 2 * from;
    }
  }

  /** Four packets of row u. */
  method StoreFour(inp: Input, data: array2<real>, mask: array2<int>, u: nat, i: nat, from: nat,
                   outCount: IncrementalDownsample8, outMean: IncrementalDownsample8)
    requires FastInput(inp) && Fits(inp, data, mask) && u < |inp.rows| && 8 * i + 8 <= inp.np && (from == 0 || from == 4)
    requires outCount != outMean && outCount.Valid() && outMean.Valid()
    requires |outCount.absorbed| == |outMean.absorbed| == from
    requires forall m :: 0 <= m < from ==> PacketSummed(inp, u, i, m, outCount.absorbed, outMean.absorbed)
    requires PanelStored(inp, data, mask, u, i, from)
    modifies data, mask, outCount, outMean
    ensures PanelStored(inp, data, mask, u, i, from + 4)
    ensures outCount.Valid() && outMean.Valid() && |outCount.absorbed| == |outMean.absorbed| == from + 4
    ensures forall m :: 0 <= m < from + 4 ==> PacketSummed(inp, u, i, m, outCount.absorbed, outMean.absorbed)
  {
    hide BlockStored, PartialSums, Broadcast, LaneTotal, PairSums, HalfSums, Upsample, Times, LoadLanes, Count, Sum;
    var offset, scale2 := LoadUpsamplers(inp, i, from);
    for n := from to from + 4
      invariant PanelStored(inp, data, mask, u, i, n)
      invariant outCount.Valid() && outMean.Valid() && |outCount.absorbed| == |outMean.absorbed| == n
      invariant forall m :: 0 <= m < n ==> PacketSummed(inp, u, i, m, outCount.absorbed, outMean.absorbed)
    {
      ghost var counts, means := outCount.absorbed, outMean.absorbed;
      assert PacketLoaded(inp, i, n, offset, scale2);
      var count, mean := StorePacket(inp, data, mask, u, i, n, offset, scale2);
      outCount.Add(n, count);
      outMean.Add(n, mean);
      forall m | 0 <= m < n + 1 ensures PacketSummed(inp, u, i, m, outCount.absorbed, outMean.absorbed) {
        if m < n { assert PacketSummed(inp, u, i, m, counts, means); }
      }
    }
  }

  ghost predicate PacketSummed(inp: Input, u: nat, i: nat, m: nat, counts: seq<Lanes>, means: seq<Lanes>)
    requires FastInput(inp) && u < |inp.rows|
  {
    8 * i + m < inp.np && m < |counts| && m < |means| && PartialSums(inp, u, 8 * i + m, counts[m], means[m])
  }

  /** Packet 8i+n, leaving the packets before it as they are. */
  method StorePacket(inp: Input, data: array2<real>, mask: array2<int>, u: nat, i: nat, n: nat,
                     offset: Upsample8, scale2: Upsample8) returns (count: Lanes, mean: Lanes)
    requires FastInput(inp) && Fits(inp, data, mask) && u < |inp.rows| && PacketLoaded(inp, i, n, offset, scale2)
    requires PanelStored(inp, data, mask, u, i, n)
    modifies data, mask
    ensures PanelStored(inp, data, mask, u, i, n + 1) && PartialSums(inp, u, 8 * i + n, count, mean)
  {
    hide PartialSums, Broadcast, Pixel, At, HalfRow, Stores;
    var b := 8 * i + n;
    count, mean := Kernel1a(inp, data, mask, u, b, n, offset, scale2);
    forall u', b' | 0 <= u' < |inp.rows| && 0 <= b' < inp.np && (u' < u || (u' == u && b' < b))
      ensures BlockStored(inp, data, mask, u', b')
    {
      assert old(BlockStored(inp, data, mask, u', b'));
      BlockInside(inp, b');
      forall j | 0 <= j < 16 ensures PixelAt(inp, data, mask, u', b', j, true) {
        PixelIs(inp, u', b', j);
        assert old(PixelAt(inp, data, mask, u', b', j, true));
        assert SameElsewhere(u, 16 * b, 16 * b + 16, u', 16 * b' + j);
      }
    }
  }

  /** Eight packets of row u, with their counts and sums added to memory. */
  method Kernel1b(inp: Input, data: array2<real>, mask: array2<int>, u: nat, i: nat, count: array<real>, mean: array<real>)
    requires FastInput(inp) && Fits(inp, data, mask) && u < |inp.rows| && 8 * i + 8 <= inp.np
    requires count.Length == mean.Length == inp.np && count != mean
    requires PanelStored(inp, data, mask, u, i, 0)
    modifies data, mask, count, mean
    ensures PanelStored(inp, data, mask, u, i, 8)
    ensures forall b :: 0 <= b < inp.np ==> BlockAdded(inp, old(count[..]), old(mean[..]), count[..], mean[..], u, i, b)
  {
    hide BlockStored, LaneTotal, PairSums, HalfSums, Count, Sum, PanelStored;
    var outCount := new IncrementalDownsample8();
    var outMean := new IncrementalDownsample8();
    StoreFour(inp, data, mask, u, i, 0, outCount, outMean);
    StoreFour(inp, data, mask, u, i, 4, outCount, outMean);
    outCount.Update(count, 8 * i);
    outMean.Update(mean, 8 * i);
    EmptySums();
    forall b | 0 <= b < inp.np ensures BlockAdded(inp, old(count[..]), old(mean[..]), count[..], mean[..], u, i, b) {
      if 8 * i <= b < 8 * i + 8 {
        var n := b - 8 * i;
        assert PacketSummed(inp, u, i, n, outCount.absorbed, outMean.absorbed);
        assert count[8 * i + n] == old(count[8 * i + n]) + LaneTotal(outCount.absorbed[n]);
        assert mean[8 * i + n] == old(mean[8 * i + n]) + LaneTotal(outMean.absorbed[n]);
      }
    }
  }

  /** Packet b of the panel has the sums of row u added. */
  ghost predicate BlockAdded(inp: Input, count0: seq<real>, mean0: seq<real>, count: seq<real>, mean: seq<real>, u: nat, i: nat, b: nat)
    requires FastInput(inp) && u < |inp.rows| && b < inp.np
    requires |count0| == |mean0| == |count| == |mean| == inp.np
  {
    var s := if 8 * i <= b < 8 * i + 8 then RowPart(inp, u, b, 16) else [];
    count[b] == count0[b] + Count(s) as real && mean[b] == mean0[b] + Sum(s)
  }

  lemma {:induction false} SumsConcat(a: seq<Sample>, b: seq<Sample>)
    ensures Count(a + b) == Count(a) + Count(b) && Sum(a + b) == Sum(a) + Sum(b)
  {
    if b == [] {
      assert a + b == a;
    } else {
      assert (a + b)[..|a + b| - 1] == a + b[..|b| - 1];
      SumsConcat(a, b[..|b| - 1]);
    }
  }

  /** Rows below u are in, and of row u the panels below i. */
  ghost predicate PanelsAccumulated(inp: Input, count: seq<real>, mean: seq<real>, u: nat, i: nat)
    requires FastInput(inp) && u < |inp.rows|
  {
    forall b :: 0 <= b < inp.np ==> PanelAccumulated(inp, count, mean, u, i, b)
  }

  ghost predicate PanelAccumulated(inp: Input, count: seq<real>, mean: seq<real>, u: nat, i: nat, b: nat)
    requires FastInput(inp) && u < |inp.rows| && b < inp.np
  {
    Accumulated(count, mean, b, Block(inp, b, if b < 8 * i then u + 1 else u))
  }

  lemma PanelAdded(inp: Input, count0: seq<real>, mean0: seq<real>, count: seq<real>, mean: seq<real>, u: nat, i: nat)
    requires FastInput(inp) && u < |inp.rows|
    requires |count0| == |mean0| == |count| == |mean| == inp.np
    requires PanelsAccumulated(inp, count0, mean0, u, i)
    requires forall b :: 0 <= b < inp.np ==> BlockAdded(inp, count0, mean0, count, mean, u, i, b)
    ensures PanelsAccumulated(inp, count, mean, u, i + 1)
  {
    hide Count, Sum, RowPart;
    var next := i + 1;
    EmptySums();
    forall b | 0 <= b < inp.np ensures PanelAccumulated(inp, count, mean, u, next, b) {
      assert PanelAccumulated(inp, count0, mean0, u, i, b);
      assert BlockAdded(inp, count0, mean0, count, mean, u, i, b);
      if 8 * i <= b < 8 * i + 8 { SumsConcat(Block(inp, b, u), RowPart(inp, u, b, 16)); }
    }
  }

  lemma PanelsBegin(inp: Input, count: seq<real>, mean: seq<real>, u: nat)
    requires FastInput(inp) && u < |inp.rows| && RowsAccumulated(inp, count, mean, u)
    ensures PanelsAccumulated(inp, count, mean, u, 0)
  {
    hide Count, Sum, Block;
    forall b | 0 <= b < inp.np ensures PanelAccumulated(inp, count, mean, u, 0, b) {
      assert Accumulated(count, mean, b, Block(inp, b, u));
    }
  }

  lemma PanelsEnd(inp: Input, count: seq<real>, mean: seq<real>, u: nat)
    requires FastInput(inp) && u < |inp.rows| && PanelsAccumulated(inp, count, mean, u, inp.np / 8)
    ensures RowsAccumulated(inp, count, mean, u + 1)
  {
    hide Count, Sum, Block;
    var next, all := u + 1, inp.np / 8;
    forall b | 0 <= b < inp.np ensures Accumulated(count, mean, b, Block(inp, b, next)) {
      assert PanelAccumulated(inp, count, mean, u, all, b);
    }
  }

  /** The sum of no samples is zero, so the two guards against dividing by zero agree. */
  lemma {:induction false} GuardsAgree(s: seq<Sample>)
    ensures Sum(s) / Max(Count(s) as real, 1.0) == Mean(s)
    ensures Count(s) == 0 ==> Sum(s) == 0.0
  {
    NoneSum(s);
  }

  lemma {:induction false} NoneSum(s: seq<Sample>)
    ensures Count(s) == 0 ==> Sum(s) == 0.0
  {
    if s != [] { NoneSum(s[..|s| - 1]); }
  }

  /** The first kernel: the same contract as the reference. */
  method FastKernel1(inp: Input, data: array2<real>, mask: array2<int>, count: array<real>, mean: array<real>)
    requires FastInput(inp) && Fits(inp, data, mask) && count.Length == mean.Length == inp.np && count != mean
    modifies data, mask, count, mean
    ensures PixelsState(inp, data, mask, |inp.rows|, 0, 0)
    ensures forall b :: 0 <= b < inp.np ==>
                          count[b] == Count(WholeBlock(inp, b)) as real && mean[b] == Mean(WholeBlock(inp, b))
  {
    hide Count, Sum, Mean, BlockStored;
    forall b | 0 <= b < inp.np { count[b] := 0.0; }
    forall b | 0 <= b < inp.np { mean[b] := 0.0; }
    EmptySums();
    for u := 0 to |inp.rows|
      invariant RowsAccumulated(inp, count[..], mean[..], u) && PanelStored(inp, data, mask, u, 0, 0)
    {
      PanelsBegin(inp, count[..], mean[..], u);
      for i := 0 to inp.np / 8
        invariant PanelsAccumulated(inp, count[..], mean[..], u, i) && PanelStored(inp, data, mask, u, i, 0)
      {
        ghost var count0, mean0 := count[..], mean[..];
        Kernel1b(inp, data, mask, u, i, count, mean);
        PanelAdded(inp, count0, mean0, count[..], mean[..], u, i);
      }
      PanelsEnd(inp, count[..], mean[..], u);
    }
    AllStored(inp, data, mask);
    assert forall b :: 0 <= b < inp.np ==> Accumulated(count[..], mean[..], b, WholeBlock(inp, b));
    DivideByCounts(inp, count, mean);
    assert PixelsState(inp, data, mask, |inp.rows|, 0, 0);
  }

  /** Second pass, eight at a time. */
  method DivideByCounts(inp: Input, count: array<real>, mean: array<real>)
    requires FastInput(inp) && count.Length == mean.Length == inp.np && count != mean
    requires forall b :: 0 <= b < inp.np ==> Accumulated(count[..], mean[..], b, WholeBlock(inp, b))
    modifies mean
    ensures forall b :: 0 <= b < inp.np ==>
                          count[b] == Count(WholeBlock(inp, b)) as real && mean[b] == Mean(WholeBlock(inp, b))
  {
    hide Count, Sum, Mean, WholeBlock;
    assert forall b :: 0 <= b < inp.np ==>
                         count[b] == Count(WholeBlock(inp, b)) as real && mean[b] == Sum(WholeBlock(inp, b)) by {
      forall b | 0 <= b < inp.np ensures count[b] == Count(WholeBlock(inp, b)) as real && mean[b] == Sum(WholeBlock(inp, b)) {
        assert Accumulated(count[..], mean[..], b, WholeBlock(inp, b));
      }
    }
    for i := 0 to inp.np / 8
      invariant forall b :: 0 <= b < inp.np ==> count[b] == Count(WholeBlock(inp, b)) as real
      invariant forall b :: 0 <= b < 8 * i ==> mean[b] == Mean(WholeBlock(inp, b))
      invariant forall b :: 8 * i <= b < inp.np ==> mean[b] == Sum(WholeBlock(inp, b))
    {
      forall b | 8 * i <= b < 8 * i + 8 ensures mean[b] / Max(count[b], 1.0) == Mean(WholeBlock(inp, b)) {
        GuardsAgree(WholeBlock(inp, b));
      }
      forall b | 8 * i <= b < 8 * i + 8 { mean[b] := mean[b] / Max(count[b], 1.0); }
    }
  }

  lemma AllStored(inp: Input, data: array2<real>, mask: array2<int>)
    requires FastInput(inp) && Fits(inp, data, mask) && PanelStored(inp, data, mask, |inp.rows|, 0, 0)
    ensures PixelsState(inp, data, mask, |inp.rows|, 0, 0)
  {
    hide PixelAt;
    var all := |inp.rows|;
    forall u, b, j | 0 <= u < all && 0 <= b < inp.np && 0 <= j < 2 * inp.nq
      ensures PixelNow(inp, data, mask, u, b, j, all, 0, 0)
    {
      assert BlockStored(inp, data, mask, u, b);
      assert PixelAt(inp, data, mask, u, b, j, true);
    }
  }

  // ------------------------------------------------------------------------------------------------
  // Second kernel

  function Squared(x: Sample, m: real): real {
    if x.Valid? then Square(x.x - m) else 0.0
  }

  function SquaresTo(s: seq<Sample>, m: real, n: nat): real
    requires n <= |s|
  {
    if n == 0 then 0.0 else SquaresTo(s, m, n - 1) + Squared(s[n - 1], m)
  }

  lemma {:induction false} DeviationTo(s: seq<Sample>, m: real, n: nat)
    requires n <= |s|
    ensures Deviation(s[..n], m) == SquaresTo(s, m, n)
  {
    hide Square;
    if n > 0 {
      DeviationTo(s, m, n - 1);
      assert s[..n][..n - 1] == s[..n - 1];
    }
  }

  lemma FourSquares(s: seq<Sample>, m: real, n: nat)
    requires n + 4 <= |s|
    ensures SquaresTo(s, m, n + 4)
            == SquaresTo(s, m, n) + Squared(s[n], m) + Squared(s[n + 1], m) + Squared(s[n + 2], m) + Squared(s[n + 3], m)
    ensures SquaresTo(s, m, 0) == 0.0
  {
    hide Squared;
    assert SquaresTo(s, m, n + 2) == SquaresTo(s, m, n) + Squared(s[n], m) + Squared(s[n + 1], m);
  }

  /** Masked differences, and the sum of their squares. */
  function SquareLanes(x0: Lanes, x1: Lanes): Lanes {
    [Square(x0[0]) + Square(x1[0]), Square(x0[1]) + Square(x1[1]), Square(x0[2]) + Square(x1[2]), Square(x0[3]) + Square(x1[3]),
     Square(x0[4]) + Square(x1[4]), Square(x0[5]) + Square(x1[5]), Square(x0[6]) + Square(x1[6]), Square(x0[7]) + Square(x1[7])]
  }

  lemma SquareSums(s: seq<Sample>, m: real, x0: Lanes, x1: Lanes)
    requires |s| == 16
    requires forall k :: 0 <= k < 8 ==> Square(x0[k]) == Squared(s[k], m) && Square(x1[k]) == Squared(s[8 + k], m)
    ensures LaneTotal(SquareLanes(x0, x1)) == Deviation(s, m)
  {
    hide Square, Squared, Deviation;
    FourSquares(s, m, 0);
    FourSquares(s, m, 4);
    FourSquares(s, m, 8);
    FourSquares(s, m, 12);
    DeviationTo(s, m, 16);
    assert s[..16] == s;
  }

  /** Eight samples, less the mean, masked. */
  function Differences(data: array2<real>, mask: array2<int>, u: nat, at: nat, m: Lanes): Lanes
    requires data.Length0 == mask.Length0 && data.Length1 == mask.Length1 && u < data.Length0 && at + 8 <= data.Length1
    reads data, mask
  {
    [AndMask(data[u, at] - m[0], mask[u, at]), AndMask(data[u, at + 1] - m[1], mask[u, at + 1]),
     AndMask(data[u, at + 2] - m[2], mask[u, at + 2]), AndMask(data[u, at + 3] - m[3], mask[u, at + 3]),
     AndMask(data[u, at + 4] - m[4], mask[u, at + 4]), AndMask(data[u, at + 5] - m[5], mask[u, at + 5]),
     AndMask(data[u, at + 6] - m[6], mask[u, at + 6]), AndMask(data[u, at + 7] - m[7], mask[u, at + 7])]
  }

  lemma DifferencesAt(data: array2<real>, mask: array2<int>, u: nat, at: nat, m: Lanes, k: nat)
    requires data.Length0 == mask.Length0 && data.Length1 == mask.Length1 && u < data.Length0 && at + 8 <= data.Length1 && k < 8
    ensures Differences(data, mask, u, at, m)[k] == AndMask(data[u, at + k] - m[k], mask[u, at + k])
  {
    hide AndMask;
  }

  lemma MaskedSquare(x: real, m: int, s: Sample, mean: real)
    requires Stores(x, m, s)
    ensures Square(AndMask(x - mean, m)) == Squared(s, mean)
  {
  }

  /** One output packet of row u. */
  method Kernel2a(inp: Input, data: array2<real>, mask: array2<int>, u: nat, b: nat, n: nat, mean: Upsample8, ghost m: real)
    returns (v: Lanes)
    requires FastInput(inp) && Fits(inp, data, mask) && u < |inp.rows| && b < inp.np && n < 8
    requires BlockStored(inp, data, mask, u, b)
    requires forall k :: 0 <= k < 8 ==> Get(mean, n)[k] == m
    ensures LaneTotal(v) == Deviation(RowPart(inp, u, b, 16), m)
  {
    hide Square, Squared, Deviation, LaneTotal, SquareLanes, Get, Differences, AndMask, Pixel, Stores, At, HalfRow;
    BlockInside(inp, b);
    var offset := Get(mean, n);
    var x0 := Differences(data, mask, u, 16 * b, offset);
    var x1 := Differences(data, mask, u, 16 * b + 8, offset);
    ghost var s := RowPart(inp, u, b, 16);
    forall k | 0 <= k < 8 ensures Square(x0[k]) == Squared(s[k], m) && Square(x1[k]) == Squared(s[8 + k], m) {
      DifferenceSquared(inp, data, mask, u, b, 0, offset, k, m);
      DifferenceSquared(inp, data, mask, u, b, 1, offset, k, m);
    }
    SquareSums(s, m, x0, x1);
    v := SquareLanes(x0, x1);
  }

  lemma DifferenceSquared(inp: Input, data: array2<real>, mask: array2<int>, u: nat, b: nat, half: nat, offset: Lanes, k: nat, m: real)
    requires FastInput(inp) && Fits(inp, data, mask) && u < |inp.rows| && b < inp.np && half < 2 && k < 8
    requires 16 * b + 16 <= HalfRow(inp) && BlockStored(inp, data, mask, u, b) && offset[k] == m
    ensures Square(Differences(data, mask, u, 16 * b + 8 * half, offset)[k]) == Squared(RowPart(inp, u, b, 16)[8 * half + k], m)
  {
    hide Square, Squared, Differences, AndMask, Pixel, Stores, At, HalfRow;
    var j := 8 * half + k;
    RowPartAt(inp, u, b, 16, j);
    PixelIs(inp, u, b, j);
    assert PixelAt(inp, data, mask, u, b, j, true);
    DifferencesAt(data, mask, u, 16 * b + 8 * half, offset, k);
    var i := 16 * b + j;
    MaskedSquare(data[u, i], mask[u, i], Pixel(inp, u, b, j), m);
  }

  /** The deviations of eight packets of row u, added to memory. */
  method Kernel2b(inp: Input, data: array2<real>, mask: array2<int>, u: nat, i: nat, w1: array<real>, w2: array<real>)
    requires FastInput(inp) && Fits(inp, data, mask) && u < |inp.rows| && 8 * i + 8 <= inp.np
    requires forall b :: 0 <= b < inp.np ==> BlockStored(inp, data, mask, u, b)
    requires w1.Length == w2.Length == inp.np && w1 != w2
    modifies w2
    ensures forall b :: 0 <= b < inp.np ==>
                          w2[b] == old(w2[b]) + if 8 * i <= b < 8 * i + 8 then Deviation(RowPart(inp, u, b, 16), w1[b]) else 0.0
  {
    hide BlockStored, LaneTotal, PairSums, HalfSums, Deviation, RowPart, Get, Upsample, LoadLanes;
    var x := LoadLanes(w1[..], 8 * i);
    var mean := Upsample(x);
    var out := new IncrementalDownsample8();
    for n := 0 to 8
      invariant out.Valid() && |out.absorbed| == n && w2[..] == old(w2[..])
      invariant forall k :: 0 <= k < n ==> LaneTotal(out.absorbed[k]) == Deviation(RowPart(inp, u, 8 * i + k, 16), w1[8 * i + k])
    {
      forall k | 0 <= k < 8 ensures Get(mean, n)[k] == w1[8 * i + n] {
        Broadcasts(x, n, k);
        LoadedLane(w1[..], 8 * i, n);
      }
      var v := Kernel2a(inp, data, mask, u, 8 * i + n, n, mean, w1[8 * i + n]);
      out.Add(n, v);
    }
    out.Update(w2, 8 * i);
    forall b | 0 <= b < inp.np
      ensures w2[b] == old(w2[b]) + if 8 * i <= b < 8 * i + 8 then Deviation(RowPart(inp, u, b, 16), w1[b]) else 0.0
    {
      if 8 * i <= b < 8 * i + 8 {
        var n := b - 8 * i;
        assert w2[8 * i + n] == old(w2[8 * i + n]) + LaneTotal(out.absorbed[n]);
        assert LaneTotal(out.absorbed[n]) == Deviation(RowPart(inp, u, 8 * i + n, 16), w1[8 * i + n]);
      }
    }
  }

  lemma LoadedLane(p: seq<real>, at: nat, k: nat)
    requires at + 8 <= |p| && k < 8
    ensures LoadLanes(p, at)[k] == p[at + k]
  {
  }

  /** Sums up the deviations, panel by panel. */
  method FastDeviations(inp: Input, data: array2<real>, mask: array2<int>, w1: array<real>, w2: array<real>)
    requires FastInput(inp) && Fits(inp, data, mask) && PixelsState(inp, data, mask, |inp.rows|, 0, 0)
    requires w1.Length == w2.Length == inp.np && w1 != w2
    modifies w2
    ensures forall b :: 0 <= b < inp.np ==> w2[b] == Deviation(WholeBlock(inp, b), w1[b])
  {
    hide RowPart, Deviation, PixelsState, BlockStored;
    forall b | 0 <= b < inp.np { w2[b] := 0.0; }
    NoDeviation();
    StoredBlocks(inp, data, mask);
    for u := 0 to |inp.rows|
      invariant forall u', b :: 0 <= u' < |inp.rows| && 0 <= b < inp.np ==> BlockStored(inp, data, mask, u', b)
      invariant forall b :: 0 <= b < inp.np ==> w2[b] == Deviation(Block(inp, b, u), w1[b])
    {
      for i := 0 to inp.np / 8
        invariant forall u', b :: 0 <= u' < |inp.rows| && 0 <= b < inp.np ==> BlockStored(inp, data, mask, u', b)
        invariant forall b :: 0 <= b < inp.np ==> Deviated(inp, w1[..], w2[..], u, b, 8 * i)
      {
        ghost var before, next := w2[..], 8 * i + 8;
        Kernel2b(inp, data, mask, u, i, w1, w2);
        forall b | 0 <= b < inp.np ensures Deviated(inp, w1[..], w2[..], u, b, next) {
          assert Deviated(inp, w1[..], before, u, b, 8 * i);
          if 8 * i <= b < 8 * i + 8 { DeviationConcat(Block(inp, b, u), RowPart(inp, u, b, 16), w1[b]); }
        }
      }
      forall b | 0 <= b < inp.np ensures w2[b] == Deviation(Block(inp, b, u + 1), w1[b]) {
        assert Deviated(inp, w1[..], w2[..], u, b, 8 * (inp.np / 8));
      }
    }
  }

  lemma StoredBlocks(inp: Input, data: array2<real>, mask: array2<int>)
    requires FastInput(inp) && Fits(inp, data, mask) && PixelsState(inp, data, mask, |inp.rows|, 0, 0)
    ensures forall u, b :: 0 <= u < |inp.rows| && 0 <= b < inp.np ==> BlockStored(inp, data, mask, u, b)
  {
    hide PixelAt;
    var all := |inp.rows|;
    forall u, b | 0 <= u < all && 0 <= b < inp.np ensures BlockStored(inp, data, mask, u, b) {
      forall j | 0 <= j < 16 ensures PixelAt(inp, data, mask, u, b, j, true) {
        assert PixelNow(inp, data, mask, u, b, j, all, 0, 0);
      }
    }
  }

  /** The second kernel: the same contract as the reference. */
  method FastKernel2(inp: Input, data: array2<real>, mask: array2<int>, w0: array<real>, w1: array<real>, w2: array<real>,
                     root: real -> real)
    requires FastInput(inp) && Fits(inp, data, mask) && PixelsState(inp, data, mask, |inp.rows|, 0, 0)
    requires w0.Length == w1.Length == w2.Length == inp.np && w0 != w1 && w1 != w2 && w0 != w2
    requires forall b :: 0 <= b < inp.np ==>
                           w0[b] == Count(WholeBlock(inp, b)) as real && w1[b] == Mean(WholeBlock(inp, b))
    requires IsRoot(root)
    modifies w0, w1, w2
    ensures forall b :: 0 <= b < inp.np ==> Finished(WholeBlock(inp, b), root, w0[b], w1[b], w2[b])
  {
    hide Mean, Count, Deviation, Square, WholeBlock, Finished, PixelsState;
    FastDeviations(inp, data, mask, w1, w2);
    for i := 0 to inp.np / 8
      invariant forall b :: 8 * i <= b < inp.np ==>
                              && w0[b] == Count(WholeBlock(inp, b)) as real && w1[b] == Mean(WholeBlock(inp, b))
                              && w2[b] == Deviation(WholeBlock(inp, b), w1[b])
      invariant forall b :: 0 <= b < 8 * i ==> Finished(WholeBlock(inp, b), root, w0[b], w1[b], w2[b])
    {
      for k := 0 to 8
        invariant forall b :: 8 * i + k <= b < inp.np ==>
                                && w0[b] == Count(WholeBlock(inp, b)) as real && w1[b] == Mean(WholeBlock(inp, b))
                                && w2[b] == Deviation(WholeBlock(inp, b), w1[b])
        invariant forall b :: 0 <= b < 8 * i + k ==> Finished(WholeBlock(inp, b), root, w0[b], w1[b], w2[b])
      {
        var b := 8 * i + k;
        w0[b], w1[b], w2[b] := FinishLane(w0[b], w1[b], w2[b], root, WholeBlock(inp, b));
      }
    }
  }

  lemma VarianceNotNegative(s: seq<Sample>)
    ensures Variance(s) >= 0.0
  {
    hide Square, Deviation, Mean;
    var d, n := Deviation(s, Mean(s)), Max(Count(s) as real, 1.0);
    assert n >= 1.0 && d >= 0.0;
    assert d / n >= 0.0;
  }

  lemma RootSign(v: real, root: real -> real)
    requires IsRoot(root) && v >= 0.0
    ensures root(v) > 0.0 <==> v > 0.0
  {
    assert root(v) >= 0.0 && root(v) * root(v) == v;
    ProductSign(root(v), root(v), v);
  }

  /** One lane of the last loop: a blend chooses 1 where the root is not positive. */
  method FinishLane(count: real, mean: real, sum: real, root: real -> real, ghost s: seq<Sample>)
    returns (offset: real, decScale: real, encScale: real)
    requires IsRoot(root) && count == Count(s) as real && mean == Mean(s) && sum == Deviation(s, mean)
    ensures Finished(s, root, offset, decScale, encScale)
  {
    hide Mean, Count, Deviation, Square, FitsBlock;
    var var_ := sum / Max(count, 1.0);
    var_ := var_ + 0.0000000001 * Square(mean);
    assert var_ == Variance(s);
    RmsIsPositive(s, root);
    BlockIsFitted(s, root);
    VarianceNotNegative(s);
    RootSign(var_, root);
    var rms := root(var_);
    rms := if rms > 0.0 then rms else 1.0;
    decScale := 0.04 * rms;
    encScale := 1.0 / decScale;
    offset := mean - 128.0 * decScale;
  }
}
