/**
  The three reference kernels that downsample one coarse frequency of a chunk by two in time: average pairs and
  accumulate, turn the accumulators into offsets and scales in place, encode.  Rows are fine frequencies; an output
  packet covers `2 * nq` output samples, made from two input packets of `2 * nq` input samples each.
*/
module DownsampleKernels {
  import opened BitMatrix
  import opened EncodeBound
  import opened Products

  /** The read-only inputs: bytes by row, offsets and scales by input packet. */
  datatype Input = Input(rows: seq<seq<uint8>>, offsets: seq<real>, scales: seq<real>, np: nat, nq: nat)

  predicate ValidInput(inp: Input) {
    && |inp.offsets| == |inp.scales| == 2 * inp.np
    && forall u :: 0 <= u < |inp.rows| ==> |inp.rows[u]| == 2 * HalfRow(inp)
  }

  /** Output samples in a row. */
  function HalfRow(inp: Input): nat {
    At(inp.np, 2 * inp.nq, 0)
  }

  /** A pair with a masked member is masked; otherwise its average, decoded. */
  function PairSample(d0: uint8, d1: uint8, scale: real, offset: real): Sample {
    if Sentinel(d0) || Sentinel(d1) then Masked
    else Valid(0.5 * scale * (d0 as real + d1 as real) + offset)
  }

  /** Output sample j of output packet b in row u. */
  function Pixel(inp: Input, u: nat, b: nat, j: nat): Sample
    requires ValidInput(inp) && u < |inp.rows| && b < inp.np && j < 2 * inp.nq
  {
    AtBound(b, inp.np, 2 * inp.nq, j);
    var i := At(b, 2 * inp.nq, j);
    var p := if j < inp.nq then 2 * b else 2 * b + 1;
    PairSample(inp.rows[u][2 * i], inp.rows[u][2 * i + 1], inp.scales[p], inp.offsets[p])
  }

  /** The value of a pair is the mean of what its members decode to; it is masked if one of them is. */
  lemma PairIsMean(d0: uint8, d1: uint8, scale: real, offset: real)
    ensures PairSample(d0, d1, scale, offset).Masked? <==> d0 == 0 || d0 == 255 || d1 == 0 || d1 == 255
    ensures PairSample(d0, d1, scale, offset).Valid? ==>
              PairSample(d0, d1, scale, offset).x == ((scale * (d0 as real) + offset) + (scale * (d1 as real) + offset)) / 2.0
  {
    var x, y := d0 as real, d1 as real;
    assert scale * (x + y) == scale * x + scale * y;
    assert 0.5 * scale * (x + y) == 0.5 * (scale * (x + y));
  }

  /** Which bytes, and which scale and offset: output sample j of packet b comes from two samples of one input packet. */
  lemma PixelIsPair(inp: Input, u: nat, b: nat, j: nat)
    requires ValidInput(inp) && u < |inp.rows| && b < inp.np && j < 2 * inp.nq
    ensures var i, p := 2 * (b * (2 * inp.nq) + j), 2 * b + (if j >= inp.nq then 1 else 0);
            && i + 1 < |inp.rows[u]| && p < |inp.scales| == |inp.offsets|
            && Pixel(inp, u, b, j) == PairSample(inp.rows[u][i], inp.rows[u][i + 1], inp.scales[p], inp.offsets[p])
  {
    AtBound(b, inp.np, 2 * inp.nq, j);
    AtIsProduct(b, 2 * inp.nq, j);
  }

  /** The first n samples of packet b in row u. */
  function RowPart(inp: Input, u: nat, b: nat, n: nat): (s: seq<Sample>)
    requires ValidInput(inp) && u < |inp.rows| && b < inp.np && n <= 2 * inp.nq
    ensures |s| == n
  {
    if n == 0 then [] else RowPart(inp, u, b, n - 1) + [Pixel(inp, u, b, n - 1)]
  }

  /** Packet b in the first u rows: all of it is the block that is encoded with one offset and one scale. */
  function Block(inp: Input, b: nat, u: nat): seq<Sample>
    requires ValidInput(inp) && u <= |inp.rows| && b < inp.np
  {
    if u == 0 then [] else Block(inp, b, u - 1) + RowPart(inp, u - 1, b, 2 * inp.nq)
  }

  function WholeBlock(inp: Input, b: nat): seq<Sample>
    requires ValidInput(inp) && b < inp.np
  {
    Block(inp, b, |inp.rows|)
  }

  /** A block has all samples of its packet, row by row. */
  lemma {:induction false} BlockHasAll(inp: Input, b: nat, u: nat, v: nat, j: nat)
    requires ValidInput(inp) && v < u <= |inp.rows| && b < inp.np && j < 2 * inp.nq
    ensures |Block(inp, b, u)| == u * (2 * inp.nq) && v * (2 * inp.nq) + j < |Block(inp, b, u)|
    ensures Block(inp, b, u)[v * (2 * inp.nq) + j] == Pixel(inp, v, b, j)
  {
    BlockLength(inp, b, u);
    BlockLength(inp, b, u - 1);
    RowHasAll(inp, u - 1, b, 2 * inp.nq, j);
    hide Pixel, ValidInput;
    var w := 2 * inp.nq;
    RowsBefore(v, u, w, j);
    if v < u - 1 { BlockHasAll(inp, b, u - 1, v, j); }
  }

  lemma RowsBefore(v: nat, u: nat, w: nat, j: nat)
    requires v < u && j < w
    ensures v * w + j < u * w && (u - 1) * w + w == u * w && (v < u - 1 ==> v * w + j < (u - 1) * w)
  {
    Distributes(w, v, 1);
    Distributes(w, u - 1, 1);
    Grows(w, v + 1, u);
    if v < u - 1 { Grows(w, v + 1, u - 1); }
  }

  lemma {:induction false} BlockLength(inp: Input, b: nat, u: nat)
    requires ValidInput(inp) && u <= |inp.rows| && b < inp.np
    ensures |Block(inp, b, u)| == u * (2 * inp.nq)
  {
    hide ValidInput;
    if u > 0 {
      BlockLength(inp, b, u - 1);
      assert (u - 1) * (2 * inp.nq) + 2 * inp.nq == u * (2 * inp.nq);
    }
  }

  lemma {:induction false} RowHasAll(inp: Input, u: nat, b: nat, n: nat, j: nat)
    requires ValidInput(inp) && u < |inp.rows| && b < inp.np && j < n <= 2 * inp.nq
    ensures RowPart(inp, u, b, n)[j] == Pixel(inp, u, b, j)
  {
    hide Pixel, ValidInput;
    if j < n - 1 { RowHasAll(inp, u, b, n - 1, j); }
  }

  // ------------------------------------------------------------------------------------------------
  // First kernel

  /** What the kernel stores for one sample: the value and -1, or zeroes. */
  predicate Stores(x: real, m: int, s: Sample) {
    match s
    case Masked => x == 0.0 && m == 0
    case Valid(v) => x == v && m == -1
  }

  /** The accumulators of packet b hold the sums over s. */
  predicate Accumulated(count: seq<real>, mean: seq<real>, b: nat, s: seq<Sample>) {
    b < |count| && b < |mean| && count[b] == Count(s) as real && mean[b] == Sum(s)
  }

  /** How much of packet b of the current row is done when p input packets, and q samples of the next, are. */
  function Reached(nq: nat, p: nat, q: nat, b: nat): (r: nat)
    ensures q <= nq ==> r <= 2 * nq
  {
    if b < p / 2 then 2 * nq else if b > p / 2 then 0 else if p % 2 == 0 then q else nq + q
  }

  lemma Append(s: seq<Sample>, x: Sample)
    ensures Count(s + [x]) == Count(s) + if x.Valid? then 1 else 0
    ensures Sum(s + [x]) == Sum(s) + if x.Valid? then x.x else 0.0
  {
    assert (s + [x])[..|s|] == s;
  }

  /** All packets while row u is under way. */
  ghost predicate AllAccumulated(inp: Input, count: seq<real>, mean: seq<real>, u: nat, p: nat, q: nat)
    requires ValidInput(inp) && u < |inp.rows| && q <= inp.nq
  {
    forall b :: 0 <= b < inp.np ==>
                  Accumulated(count, mean, b, Block(inp, b, u) + RowPart(inp, u, b, Reached(inp.nq, p, q, b)))
  }

  /** A pixel that has been visited holds its sample, the others are still cleared. */
  predicate PixelState(inp: Input, x: real, m: int, u: nat, b: nat, j: nat, done: bool)
    requires ValidInput(inp) && u < |inp.rows| && b < inp.np && j < 2 * inp.nq
  {
    if done then Stores(x, m, Pixel(inp, u, b, j)) else x == 0.0 && m == 0
  }

  predicate Fits(inp: Input, data: array2<real>, mask: array2<int>) {
    data.Length0 == mask.Length0 == |inp.rows| && data.Length1 == mask.Length1 == HalfRow(inp)
  }

  /** Rows below u are done, and row u as far as (p, q). */
  ghost predicate PixelsState(inp: Input, data: array2<real>, mask: array2<int>, u: nat, p: nat, q: nat)
    requires ValidInput(inp) && Fits(inp, data, mask)
    reads data, mask
  {
    forall u', b, j :: 0 <= u' < |inp.rows| && 0 <= b < inp.np && 0 <= j < 2 * inp.nq ==>
                         PixelNow(inp, data, mask, u', b, j, u, p, q)
  }

  predicate PixelNow(inp: Input, data: array2<real>, mask: array2<int>, u': nat, b: nat, j: nat, u: nat, p: nat, q: nat)
    requires ValidInput(inp) && Fits(inp, data, mask) && u' < |inp.rows| && b < inp.np && j < 2 * inp.nq
    reads data, mask
  {
    PixelAt(inp, data, mask, u', b, j, u' < u || (u' == u && j < Reached(inp.nq, p, q, b)))
  }

  predicate PixelAt(inp: Input, data: array2<real>, mask: array2<int>, u: nat, b: nat, j: nat, done: bool)
    requires ValidInput(inp) && Fits(inp, data, mask) && u < |inp.rows| && b < inp.np && j < 2 * inp.nq
    reads data, mask
  {
    var i := At(b, 2 * inp.nq, j);
    i < data.Length1 && PixelState(inp, data[u, i], mask[u, i], u, b, j, done)
  }

  /** Input packet p, pair q is output packet p/2, sample j. */
  function SampleOf(nq: nat, p: nat, q: nat): nat {
    if p % 2 == 0 then q else nq + q
  }

  lemma {:induction false} PairIndex(nq: nat, p: nat, q: nat)
    ensures At(p, nq, q) == At(p / 2, 2 * nq, SampleOf(nq, p, q))
  {
    if p == 1 {
      assert At(1, nq, q) == nq + At(0, nq, q);
    } else if p > 1 {
      PairIndex(nq, p - 2, q);
      assert At(p, nq, q) == nq + (nq + At(p - 2, nq, q));
      assert At(p / 2, 2 * nq, SampleOf(nq, p, q)) == 2 * nq + At(p / 2 - 1, 2 * nq, SampleOf(nq, p, q));
    }
  }

  lemma PairInside(inp: Input, u: nat, p: nat, q: nat)
    requires ValidInput(inp) && u < |inp.rows| && p < 2 * inp.np && q < inp.nq
    ensures p / 2 < inp.np && SampleOf(inp.nq, p, q) < 2 * inp.nq
    ensures var i := At(p, inp.nq, q);
            && i == At(p / 2, 2 * inp.nq, SampleOf(inp.nq, p, q)) && i < HalfRow(inp)
            && Pixel(inp, u, p / 2, SampleOf(inp.nq, p, q))
               == PairSample(inp.rows[u][2 * i], inp.rows[u][2 * i + 1], inp.scales[p], inp.offsets[p])
  {
    hide At;
    PairIndex(inp.nq, p, q);
    AtBound(p / 2, inp.np, 2 * inp.nq, SampleOf(inp.nq, p, q));
  }

  /** Only packet p/2 has moved on, by one sample. */
  lemma ReachedStep(nq: nat, p: nat, q: nat, b: nat)
    requires q < nq
    ensures Reached(nq, p, q + 1, b) == if b == p / 2 then SampleOf(nq, p, q) + 1 else Reached(nq, p, q, b)
    ensures Reached(nq, p, q, p / 2) == SampleOf(nq, p, q)
  {
  }

  lemma PairAccumulated(inp: Input, count0: seq<real>, mean0: seq<real>, count: seq<real>, mean: seq<real>,
                        u: nat, p: nat, q: nat, x: Sample)
    requires ValidInput(inp) && u < |inp.rows| && p < 2 * inp.np && q < inp.nq
    requires |count0| == |mean0| == |count| == |mean| == inp.np
    requires AllAccumulated(inp, count0, mean0, u, p, q)
    requires p / 2 < inp.np && SampleOf(inp.nq, p, q) < 2 * inp.nq && x == Pixel(inp, u, p / 2, SampleOf(inp.nq, p, q))
    requires count == count0[p / 2 := count0[p / 2] + if x.Valid? then 1.0 else 0.0]
    requires mean == mean0[p / 2 := mean0[p / 2] + if x.Valid? then x.x else 0.0]
    ensures AllAccumulated(inp, count, mean, u, p, q + 1)
  {
    hide Count, Sum, Block, Pixel;
    forall b | 0 <= b < inp.np
      ensures Accumulated(count, mean, b, Block(inp, b, u) + RowPart(inp, u, b, Reached(inp.nq, p, q + 1, b)))
    {
      ReachedStep(inp.nq, p, q, b);
      var s := Block(inp, b, u) + RowPart(inp, u, b, Reached(inp.nq, p, q, b));
      assert Accumulated(count0, mean0, b, s);
      if b == p / 2 {
        Append(s, x);
        assert s + [x] == Block(inp, b, u) + (RowPart(inp, u, b, Reached(inp.nq, p, q, b)) + [x]);
      }
    }
  }

  lemma PairSampleIs(d0: uint8, d1: uint8, s: real, offset: real, scale: real)
    requires scale == 0.5 * s
    ensures PairSample(d0, d1, s, offset)
            == if d0 == 0 || d0 == 255 || d1 == 0 || d1 == 255 then Masked else Valid(scale * (d0 as real + d1 as real) + offset)
  {
  }

  /** The innermost body: one pair. */
  method AddPair(inp: Input, data: array2<real>, mask: array2<int>, count: array<real>, mean: array<real>,
                 u: nat, p: nat, q: nat)
    requires ValidInput(inp) && Fits(inp, data, mask) && count.Length == mean.Length == inp.np && count != mean
    requires u < |inp.rows| && p < 2 * inp.np && q < inp.nq
    requires AllAccumulated(inp, count[..], mean[..], u, p, q) && PixelsState(inp, data, mask, u, p, q)
    modifies data, mask, count, mean
    ensures AllAccumulated(inp, count[..], mean[..], u, p, q + 1) && PixelsState(inp, data, mask, u, p, q + 1)
  {
    hide Pixel, At, Count, Sum, RowPart, Block, AllAccumulated, PairSample;
    ghost var b, j := p / 2, SampleOf(inp.nq, p, q);
    ghost var count0, mean0 := count[..], mean[..];
    var i := At(p, inp.nq, q);
    PairInside(inp, u, p, q);
    var d0, d1 := inp.rows[u][2 * i], inp.rows[u][2 * i + 1];
    var scale, offset := 0.5 * inp.scales[p], inp.offsets[p];
    ghost var x := PairSample(d0, d1, inp.scales[p], inp.offsets[p]);
    PairSampleIs(d0, d1, inp.scales[p], inp.offsets[p], scale);
    ReachedStep(inp.nq, p, q, b);
    assert PixelNow(inp, data, mask, u, b, j, u, p, q);
    label Before:
    if !(d0 == 0 || d0 == 255 || d1 == 0 || d1 == 255) {
      var v := scale * (d0 as real + d1 as real) + offset;
      data[u, i] := v;
      mask[u, i] := -1;
      count[p / 2] := count[p / 2] + 1.0;
      mean[p / 2] := mean[p / 2] + v;
    }
    PairAccumulated(inp, count0, mean0, count[..], mean[..], u, p, q, x);
    ghost var after := q + 1;
    forall u', b', j' | 0 <= u' < |inp.rows| && 0 <= b' < inp.np && 0 <= j' < 2 * inp.nq
      ensures PixelNow(inp, data, mask, u', b', j', u, p, after)
    {
      ReachedStep(inp.nq, p, q, b');
      assert old@Before(PixelNow(inp, data, mask, u', b', j', u, p, q));
      if At(b', 2 * inp.nq, j') == i { AtInjective(b', j', b, j, 2 * inp.nq); }
    }
  }

  lemma PacketDone(nq: nat, p: nat, b: nat)
    ensures Reached(nq, p, nq, b) == Reached(nq, p + 1, 0, b)
  {
  }

  /** One input packet of one row. */
  method AddPacket(inp: Input, data: array2<real>, mask: array2<int>, count: array<real>, mean: array<real>, u: nat, p: nat)
    requires ValidInput(inp) && Fits(inp, data, mask) && count.Length == mean.Length == inp.np && count != mean
    requires u < |inp.rows| && p < 2 * inp.np
    requires AllAccumulated(inp, count[..], mean[..], u, p, 0) && PixelsState(inp, data, mask, u, p, 0)
    modifies data, mask, count, mean
    ensures AllAccumulated(inp, count[..], mean[..], u, p + 1, 0) && PixelsState(inp, data, mask, u, p + 1, 0)
  {
    hide Pixel, Count, Sum, RowPart, Block, Reached, PixelAt;
    for q := 0 to inp.nq
      invariant AllAccumulated(inp, count[..], mean[..], u, p, q) && PixelsState(inp, data, mask, u, p, q)
    {
      AddPair(inp, data, mask, count, mean, u, p, q);
    }
    PacketCounted(inp, count[..], mean[..], u, p);
    ghost var after := p + 1;
    forall u', b, j | 0 <= u' < |inp.rows| && 0 <= b < inp.np && 0 <= j < 2 * inp.nq
      ensures PixelNow(inp, data, mask, u', b, j, u, after, 0)
    {
      PacketDone(inp.nq, p, b);
      assert PixelNow(inp, data, mask, u', b, j, u, p, inp.nq);
    }
  }

  lemma PacketCounted(inp: Input, count: seq<real>, mean: seq<real>, u: nat, p: nat)
    requires ValidInput(inp) && u < |inp.rows| && AllAccumulated(inp, count, mean, u, p, inp.nq)
    ensures AllAccumulated(inp, count, mean, u, p + 1, 0)
  {
    hide Count, Sum, RowPart, Block, Reached;
    forall b | 0 <= b < inp.np
      ensures Accumulated(count, mean, b, Block(inp, b, u) + RowPart(inp, u, b, Reached(inp.nq, p + 1, 0, b)))
    {
      PacketDone(inp.nq, p, b);
      assert Accumulated(count, mean, b, Block(inp, b, u) + RowPart(inp, u, b, Reached(inp.nq, p, inp.nq, b)));
    }
  }

  /** After u whole rows. */
  ghost predicate RowsAccumulated(inp: Input, count: seq<real>, mean: seq<real>, u: nat)
    requires ValidInput(inp) && u <= |inp.rows|
  {
    forall b :: 0 <= b < inp.np ==> Accumulated(count, mean, b, Block(inp, b, u))
  }

  lemma RowBegins(inp: Input, count: seq<real>, mean: seq<real>, u: nat)
    requires ValidInput(inp) && u < |inp.rows| && RowsAccumulated(inp, count, mean, u)
    ensures AllAccumulated(inp, count, mean, u, 0, 0)
  {
    hide Count, Sum, Block;
    forall b | 0 <= b < inp.np
      ensures Accumulated(count, mean, b, Block(inp, b, u) + RowPart(inp, u, b, Reached(inp.nq, 0, 0, b)))
    {
      assert Block(inp, b, u) + [] == Block(inp, b, u);
    }
  }

  lemma RowEnds(inp: Input, count: seq<real>, mean: seq<real>, u: nat)
    requires ValidInput(inp) && u < |inp.rows| && AllAccumulated(inp, count, mean, u, 2 * inp.np, 0)
    ensures RowsAccumulated(inp, count, mean, u + 1)
  {
    hide Count, Sum, RowPart;
    var after := u + 1;
    forall b | 0 <= b < inp.np ensures Accumulated(count, mean, b, Block(inp, b, after)) {
      assert Accumulated(count, mean, b, Block(inp, b, u) + RowPart(inp, u, b, Reached(inp.nq, 2 * inp.np, 0, b)));
    }
  }

  /** Averages pairs, and leaves the count and the mean of every block. */
  method Kernel1(inp: Input, data: array2<real>, mask: array2<int>, count: array<real>, mean: array<real>)
    requires ValidInput(inp) && Fits(inp, data, mask) && count.Length == mean.Length == inp.np && count != mean
    modifies data, mask, count, mean
    ensures PixelsState(inp, data, mask, |inp.rows|, 0, 0)
    ensures forall b :: 0 <= b < inp.np ==>
                          count[b] == Count(WholeBlock(inp, b)) as real && mean[b] == Mean(WholeBlock(inp, b))
  {
    hide Count, Sum;
    forall u, i | 0 <= u < data.Length0 && 0 <= i < data.Length1 { data[u, i] := 0.0; }
    forall u, i | 0 <= u < mask.Length0 && 0 <= i < mask.Length1 { mask[u, i] := 0; }
    forall b | 0 <= b < inp.np { count[b] := 0.0; }
    forall b | 0 <= b < inp.np { mean[b] := 0.0; }
    EmptySums();
    NothingStored(inp, data, mask);
    for u := 0 to |inp.rows|
      invariant RowsAccumulated(inp, count[..], mean[..], u) && PixelsState(inp, data, mask, u, 0, 0)
    {
      RowBegins(inp, count[..], mean[..], u);
      for p := 0 to 2 * inp.np
        invariant AllAccumulated(inp, count[..], mean[..], u, p, 0) && PixelsState(inp, data, mask, u, p, 0)
      {
        AddPacket(inp, data, mask, count, mean, u, p);
      }
      RowEnds(inp, count[..], mean[..], u);
      RowStored(inp, data, mask, u);
    }
    for b := 0 to inp.np
      invariant PixelsState(inp, data, mask, |inp.rows|, 0, 0)
      invariant forall b' :: 0 <= b' < inp.np ==>
                               && count[b'] == Count(WholeBlock(inp, b')) as real
                               && mean[b'] == if b' < b then Mean(WholeBlock(inp, b')) else Sum(WholeBlock(inp, b'))
    {
      mean[b] := mean[b] / Max(count[b], 0.5);
    }
  }

  lemma EmptySums()
    ensures Count([]) == 0 && Sum([]) == 0.0
  {
  }

  lemma NothingStored(inp: Input, data: array2<real>, mask: array2<int>)
    requires ValidInput(inp) && Fits(inp, data, mask)
    requires forall u, i :: 0 <= u < data.Length0 && 0 <= i < data.Length1 ==> data[u, i] == 0.0 && mask[u, i] == 0
    ensures PixelsState(inp, data, mask, 0, 0, 0)
  {
    forall u', b, j | 0 <= u' < |inp.rows| && 0 <= b < inp.np && 0 <= j < 2 * inp.nq
      ensures PixelNow(inp, data, mask, u', b, j, 0, 0, 0)
    {
      AtBound(b, inp.np, 2 * inp.nq, j);
    }
  }

  lemma RowStored(inp: Input, data: array2<real>, mask: array2<int>, u: nat)
    requires ValidInput(inp) && Fits(inp, data, mask) && PixelsState(inp, data, mask, u, 2 * inp.np, 0)
    ensures PixelsState(inp, data, mask, u + 1, 0, 0)
  {
    var after, all := u + 1, 2 * inp.np;
    forall u', b, j | 0 <= u' < |inp.rows| && 0 <= b < inp.np && 0 <= j < 2 * inp.nq
      ensures PixelNow(inp, data, mask, u', b, j, after, 0, 0)
    {
      assert PixelNow(inp, data, mask, u', b, j, u, all, 0);
    }
  }

  // ------------------------------------------------------------------------------------------------
  // Second kernel

  lemma {:induction false} DeviationConcat(a: seq<Sample>, b: seq<Sample>, m: real)
    ensures Deviation(a + b, m) == Deviation(a, m) + Deviation(b, m)
  {
    hide Square;
    if b == [] {
      assert a + b == a;
    } else {
      assert (a + b)[..|a + b| - 1] == a + b[..|b| - 1];
      DeviationConcat(a, b[..|b| - 1], m);
    }
  }

  /** Squared deviations of one packet of one row. */
  method RowDeviation(inp: Input, data: array2<real>, mask: array2<int>, u: nat, b: nat, mean: real) returns (var_: real)
    requires ValidInput(inp) && Fits(inp, data, mask) && PixelsState(inp, data, mask, |inp.rows|, 0, 0)
    requires u < |inp.rows| && b < inp.np
    ensures var_ == Deviation(RowPart(inp, u, b, 2 * inp.nq), mean)
  {
    hide Pixel, Square;
    var_ := 0.0;
    for j := 0 to 2 * inp.nq
      invariant var_ == Deviation(RowPart(inp, u, b, j), mean)
    {
      assert PixelNow(inp, data, mask, u, b, j, |inp.rows|, 0, 0);
      var i := At(b, 2 * inp.nq, j);
      if mask[u, i] != 0 {
        var_ := var_ + Square(data[u, i] - mean);
      }
      assert RowPart(inp, u, b, j + 1)[..j] == RowPart(inp, u, b, j);
    }
  }

  /** Packets below `next` include row u already. */
  ghost predicate Deviated(inp: Input, w1: seq<real>, w2: seq<real>, u: nat, b: nat, next: nat)
    requires ValidInput(inp) && u < |inp.rows| && b < inp.np
  {
    b < |w1| && b < |w2| && w2[b] == Deviation(Block(inp, b, if b < next then u + 1 else u), w1[b])
  }

  /** Sums up the deviations, row by row. */
  method SumDeviations(inp: Input, data: array2<real>, mask: array2<int>, w1: array<real>, w2: array<real>)
    requires ValidInput(inp) && Fits(inp, data, mask) && PixelsState(inp, data, mask, |inp.rows|, 0, 0)
    requires w1.Length == w2.Length == inp.np && w1 != w2
    modifies w2
    ensures forall b :: 0 <= b < inp.np ==> w2[b] == Deviation(WholeBlock(inp, b), w1[b])
  {
    hide RowPart, Deviation, PixelsState;
    forall b | 0 <= b < inp.np { w2[b] := 0.0; }
    NoDeviation();
    for u := 0 to |inp.rows|
      invariant PixelsState(inp, data, mask, |inp.rows|, 0, 0)
      invariant forall b :: 0 <= b < inp.np ==> w2[b] == Deviation(Block(inp, b, u), w1[b])
    {
      for b := 0 to inp.np
        invariant PixelsState(inp, data, mask, |inp.rows|, 0, 0)
        invariant forall b' :: 0 <= b' < inp.np ==> Deviated(inp, w1[..], w2[..], u, b', b)
      {
        var v := RowDeviation(inp, data, mask, u, b, w1[b]);
        DeviationConcat(Block(inp, b, u), RowPart(inp, u, b, 2 * inp.nq), w1[b]);
        assert Deviated(inp, w1[..], w2[..], u, b, b);
        ghost var before, next := w2[..], b + 1;
        w2[b] := w2[b] + v;
        forall b' | 0 <= b' < inp.np ensures Deviated(inp, w1[..], w2[..], u, b', next) {
          assert Deviated(inp, w1[..], before, u, b', b);
        }
      }
      forall b | 0 <= b < inp.np ensures w2[b] == Deviation(Block(inp, b, u + 1), w1[b]) {
        assert Deviated(inp, w1[..], w2[..], u, b, inp.np);
      }
    }
  }

  lemma NoDeviation()
    ensures forall m :: Deviation([], m) == 0.0
  {
  }

  /** The three numbers of one block, in the order the arrays end up holding them. */
  predicate Finished(s: seq<Sample>, root: real -> real, w0: real, w1: real, w2: real) {
    && DecScale(s, root) > 0.0
    && w0 == Offset(Mean(s), DecScale(s, root)) && w1 == DecScale(s, root) && w2 == 1.0 / DecScale(s, root)
    && FitsBlock(s, w0, w1) && w2 * w1 == 1.0
  }

  /** From count and mean to offset, decoding scale and encoding scale, in the same arrays. */
  method Kernel2(inp: Input, data: array2<real>, mask: array2<int>, w0: array<real>, w1: array<real>, w2: array<real>,
                 root: real -> real)
    requires ValidInput(inp) && Fits(inp, data, mask) && PixelsState(inp, data, mask, |inp.rows|, 0, 0)
    requires w0.Length == w1.Length == w2.Length == inp.np && w0 != w1 && w1 != w2 && w0 != w2
    requires forall b :: 0 <= b < inp.np ==>
                           w0[b] == Count(WholeBlock(inp, b)) as real && w1[b] == Mean(WholeBlock(inp, b))
    requires IsRoot(root)
    modifies w0, w1, w2
    ensures forall b :: 0 <= b < inp.np ==> Finished(WholeBlock(inp, b), root, w0[b], w1[b], w2[b])
  {
    hide Mean, Count, Deviation, Square, Finished;
    SumDeviations(inp, data, mask, w1, w2);
    for b := 0 to inp.np
      invariant forall b' :: b <= b' < inp.np ==>
                               && w0[b'] == Count(WholeBlock(inp, b')) as real && w1[b'] == Mean(WholeBlock(inp, b'))
                               && w2[b'] == Deviation(WholeBlock(inp, b'), w1[b'])
      invariant forall b' :: 0 <= b' < b ==> Finished(WholeBlock(inp, b'), root, w0[b'], w1[b'], w2[b'])
    {
      ghost var s := WholeBlock(inp, b);
      var mean := w1[b];
      var var_ := w2[b] / Max(w0[b], 1.0);
      var_ := var_ + 0.0000000001 * Square(mean);
      var rms := if var_ > 0.0 then root(var_) else 1.0;
      var decScale := 0.04 * rms;
      var encScale := 1.0 / decScale;
      var offset := mean - 128.0 * decScale;
      FinishedIs(s, root, var_, decScale);
      w0[b] := offset;
      w1[b] := decScale;
      w2[b] := encScale;
    }
  }

  lemma FinishedIs(s: seq<Sample>, root: real -> real, v: real, scale: real)
    requires IsRoot(root) && v == Deviation(s, Mean(s)) / Max(Count(s) as real, 1.0) + 0.0000000001 * Square(Mean(s))
    requires scale == 0.04 * if v > 0.0 then root(v) else 1.0
    ensures scale > 0.0 && Finished(s, root, Mean(s) - 128.0 * scale, scale, 1.0 / scale)
  {
    RmsIsPositive(s, root);
    BlockIsFitted(s, root);
    hide Mean, Count, Deviation, Square, FitsBlock;
    assert v == Variance(s);
  }

  // ------------------------------------------------------------------------------------------------
  // Third kernel

  /** One sample. */
  method EncodeOne(x0: real, m: int, off: real, scal: real, ghost s: Sample, ghost mean: real, ghost scale: real)
    returns (d: uint8)
    requires Stores(x0, m, s) && scale > 0.0 && off == Offset(mean, scale) && scal == 1.0 / scale
    ensures d == EncodeSample(s, mean, scale)
  {
    hide Offset;
    var x := scal * (x0 - off);
    if s.Valid? { Reciprocal(x0 - off, scale); }
    x := Max(x, 0.0);
    x := Min(x, 255.0);
    if m != -1 {
      x := 0.0;
    }
    RoundsToByte(x);
    d := Round(x);
  }

  lemma RoundsToByte(x: real)
    requires 0.0 <= x <= 255.0
    ensures 0 <= Round(x) <= 255 && (x == 0.0 ==> Round(x) == 0)
  {
  }

  lemma Reciprocal(x: real, scale: real)
    requires scale > 0.0
    ensures (1.0 / scale) * x == x / scale
  {
  }

  predicate Encoded(inp: Input, d: uint8, root: real -> real, u: nat, b: nat, j: nat)
    requires ValidInput(inp) && u < |inp.rows| && b < inp.np && j < 2 * inp.nq
  {
    && DecScale(WholeBlock(inp, b), root) > 0.0
    && d == EncodeSample(Pixel(inp, u, b, j), Mean(WholeBlock(inp, b)), DecScale(WholeBlock(inp, b), root))
  }

  /** Which output pixels have been encoded: rows below u, packets below b of row u, and n samples of packet b. */
  ghost predicate OutputState(inp: Input, out: array2<uint8>, root: real -> real, u: nat, b: nat, n: nat)
    requires ValidInput(inp) && out.Length0 == |inp.rows| && out.Length1 == HalfRow(inp)
    reads out
  {
    forall u', b', j :: 0 <= u' < |inp.rows| && 0 <= b' < inp.np && 0 <= j < 2 * inp.nq ==>
                          OutputNow(inp, out, root, u', b', j, u, b, n)
  }

  predicate OutputNow(inp: Input, out: array2<uint8>, root: real -> real, u': nat, b': nat, j: nat, u: nat, b: nat, n: nat)
    requires ValidInput(inp) && out.Length0 == |inp.rows| && out.Length1 == HalfRow(inp)
    requires u' < |inp.rows| && b' < inp.np && j < 2 * inp.nq
    reads out
  {
    var i := At(b', 2 * inp.nq, j);
    i < out.Length1 && (u' < u || (u' == u && (b' < b || (b' == b && j < n))) ==> Encoded(inp, out[u', i], root, u', b', j))
  }

  /** One packet of one row. */
  method EncodePacket(inp: Input, out: array2<uint8>, data: array2<real>, mask: array2<int>, encOff: array<real>,
                      encScal: array<real>, ghost decScale: seq<real>, root: real -> real, u: nat, b: nat)
    requires ValidInput(inp) && Fits(inp, data, mask) && PixelsState(inp, data, mask, |inp.rows|, 0, 0)
    requires out.Length0 == |inp.rows| && out.Length1 == HalfRow(inp) && encOff.Length == encScal.Length == |decScale| == inp.np
    requires u < |inp.rows| && b < inp.np
    requires Finished(WholeBlock(inp, b), root, encOff[b], decScale[b], encScal[b])
    requires OutputState(inp, out, root, u, b, 0)
    modifies out
    ensures OutputState(inp, out, root, u, b + 1, 0)
  {
    hide Pixel, Mean, DecScale, At, WholeBlock, Encoded, EncodeSample, Offset;
    var off, scal := encOff[b], encScal[b];
    for j := 0 to 2 * inp.nq
      invariant OutputState(inp, out, root, u, b, j)
    {
      AtBound(b, inp.np, 2 * inp.nq, j);
      var i := At(b, 2 * inp.nq, j);
      assert PixelNow(inp, data, mask, u, b, j, |inp.rows|, 0, 0);
      label Before:
      ghost var s, next := WholeBlock(inp, b), j + 1;
      var d := EncodeOne(data[u, i], mask[u, i], off, scal, Pixel(inp, u, b, j), Mean(s), DecScale(s, root));
      EncodedIs(inp, d, root, u, b, j);
      out[u, i] := d;
      forall u', b', j' | 0 <= u' < |inp.rows| && 0 <= b' < inp.np && 0 <= j' < 2 * inp.nq
        ensures OutputNow(inp, out, root, u', b', j', u, b, next)
      {
        assert old@Before(OutputNow(inp, out, root, u', b', j', u, b, j));
        if At(b', 2 * inp.nq, j') == i { AtInjective(b', j', b, j, 2 * inp.nq); }
      }
    }
    ghost var after, all := b + 1, 2 * inp.nq;
    forall u', b', j' | 0 <= u' < |inp.rows| && 0 <= b' < inp.np && 0 <= j' < 2 * inp.nq
      ensures OutputNow(inp, out, root, u', b', j', u, after, 0)
    {
      assert OutputNow(inp, out, root, u', b', j', u, b, all);
    }
  }

  lemma EncodedIs(inp: Input, d: uint8, root: real -> real, u: nat, b: nat, j: nat)
    requires ValidInput(inp) && u < |inp.rows| && b < inp.np && j < 2 * inp.nq
    requires var s := WholeBlock(inp, b);
             DecScale(s, root) > 0.0 && d == EncodeSample(Pixel(inp, u, b, j), Mean(s), DecScale(s, root))
    ensures Encoded(inp, d, root, u, b, j)
  {
  }

  /** Encodes every pixel with the offset and scale of its block. */
  method Kernel3(inp: Input, out: array2<uint8>, data: array2<real>, mask: array2<int>, encOff: array<real>,
                 encScal: array<real>, ghost decScale: seq<real>, root: real -> real)
    requires ValidInput(inp) && Fits(inp, data, mask) && PixelsState(inp, data, mask, |inp.rows|, 0, 0)
    requires out.Length0 == |inp.rows| && out.Length1 == HalfRow(inp) && encOff.Length == encScal.Length == |decScale| == inp.np
    requires forall b :: 0 <= b < inp.np ==> Finished(WholeBlock(inp, b), root, encOff[b], decScale[b], encScal[b])
    modifies out
    ensures OutputState(inp, out, root, |inp.rows|, 0, 0)
  {
    hide Finished, Encoded, WholeBlock, Pixel, PixelsState;
    NothingEncoded(inp, out, root);
    for u := 0 to |inp.rows|
      invariant OutputState(inp, out, root, u, 0, 0) && PixelsState(inp, data, mask, |inp.rows|, 0, 0)
    {
      for b := 0 to inp.np
        invariant OutputState(inp, out, root, u, b, 0) && PixelsState(inp, data, mask, |inp.rows|, 0, 0)
      {
        EncodePacket(inp, out, data, mask, encOff, encScal, decScale, root, u, b);
      }
      ghost var after := u + 1;
      forall u', b', j' | 0 <= u' < |inp.rows| && 0 <= b' < inp.np && 0 <= j' < 2 * inp.nq
        ensures OutputNow(inp, out, root, u', b', j', after, 0, 0)
      {
        assert OutputNow(inp, out, root, u', b', j', u, inp.np, 0);
      }
    }
  }

  lemma NothingEncoded(inp: Input, out: array2<uint8>, root: real -> real)
    requires ValidInput(inp) && out.Length0 == |inp.rows| && out.Length1 == HalfRow(inp)
    ensures OutputState(inp, out, root, 0, 0, 0)
  {
    hide Encoded;
    forall u', b', j | 0 <= u' < |inp.rows| && 0 <= b' < inp.np && 0 <= j < 2 * inp.nq
      ensures OutputNow(inp, out, root, u', b', j, 0, 0, 0)
    {
      AtBound(b', inp.np, 2 * inp.nq, j);
    }
  }

  // ------------------------------------------------------------------------------------------------
  // All three

  /** Downsamples one coarse frequency: bytes, offsets and scales of the output. */
  method Downsample(inp: Input, out: array2<uint8>, offsets: array<real>, scales: array<real>, root: real -> real)
    requires ValidInput(inp) && IsRoot(root)
    requires out.Length0 == |inp.rows| && out.Length1 == HalfRow(inp)
    requires offsets.Length == scales.Length == inp.np && offsets != scales
    modifies out, offsets, scales
    ensures OutputState(inp, out, root, |inp.rows|, 0, 0)
    ensures forall b :: 0 <= b < inp.np ==>
                          var s := WholeBlock(inp, b);
                          && scales[b] == DecScale(s, root) && offsets[b] == Offset(Mean(s), DecScale(s, root))
                          && FitsBlock(s, offsets[b], scales[b])
    ensures forall b :: 0 <= b < inp.np ==> BlockIsGood(WholeBlock(inp, b), root)
  {
    hide Mean, Count, DecScale, WholeBlock, PixelsState, OutputState, Offset, FitsBlock;
    var data := new real[|inp.rows|, HalfRow(inp)];
    var mask := new int[|inp.rows|, HalfRow(inp)];
    var w2 := new real[inp.np];
    Kernel1(inp, data, mask, offsets, scales);
    Kernel2(inp, data, mask, offsets, scales, w2, root);
    assert forall b :: 0 <= b < inp.np ==> Finished(WholeBlock(inp, b), root, offsets[b], scales[b], w2[b]);
    Kernel3(inp, out, data, mask, offsets, w2, scales[..], root);
    forall b | 0 <= b < inp.np ensures BlockIsGood(WholeBlock(inp, b), root) {
      EveryBlockIsGood(WholeBlock(inp, b), root);
    }
  }

  /** Few sentinels among the valid samples, the rest close to their values, masked samples masked. */
  ghost predicate BlockIsGood(s: seq<Sample>, root: real -> real) {
    var mean, scale := Mean(s), DecScale(s, root);
    && scale > 0.0
    && 25 * Sentinels(s, mean, scale) <= Count(s)
    && (forall k :: 0 <= k < |s| ==> SampleIsGood(s[k], mean, scale) && ErrorIsSmall(s, s[k], mean, scale))
  }

  /** What survives is off by at most a fiftieth of the deviation of its block. */
  predicate ErrorIsSmall(s: seq<Sample>, x: Sample, mean: real, scale: real)
    requires scale > 0.0
  {
    var d := EncodeSample(x, mean, scale);
    x.Valid? && !Sentinel(d) && Count(s) > 0 ==>
      var n := Count(s) as real;
      var m := Sum(s) / n;
      Deviation(s, m) > 0.0 || m != 0.0 ==>
        2500.0 * Square(DecodeByte(d, mean, scale) - x.x) * n <= Deviation(s, m) + 0.0000000001 * Square(m) * n
  }

  predicate SampleIsGood(x: Sample, mean: real, scale: real)
    requires scale > 0.0
  {
    var d := EncodeSample(x, mean, scale);
    match x
    case Masked => Sentinel(d)
    case Valid(v) => Sentinel(d) || -scale / 2.0 <= DecodeByte(d, mean, scale) - v <= scale / 2.0
  }

  lemma EveryBlockIsGood(s: seq<Sample>, root: real -> real)
    requires IsRoot(root)
    ensures BlockIsGood(s, root)
  {
    hide Mean, Count, DecScale, Sentinels, EncodeSample, DecodeByte;
    DownsampledBlockBound(s, root);
    var mean, scale := Mean(s), DecScale(s, root);
    BlockIsFitted(s, root);
    forall k | 0 <= k < |s| ensures SampleIsGood(s[k], mean, scale) && ErrorIsSmall(s, s[k], mean, scale) {
      match s[k]
      case Masked => MaskedStaysMasked(mean, scale);
      case Valid(v) =>
        if !Sentinel(EncodeSample(s[k], mean, scale)) {
          SurvivorIsClose(v, mean, scale);
          ErrorOfSurvivor(s, s[k], mean, scale);
        }
    }
  }

  lemma ErrorOfSurvivor(s: seq<Sample>, x: Sample, mean: real, scale: real)
    requires scale > 0.0 && SampleIsGood(x, mean, scale) && exists offset :: FitsBlock(s, offset, scale)
    ensures ErrorIsSmall(s, x, mean, scale)
  {
    hide Count, Sum, Deviation, EncodeSample, DecodeByte, Square;
    var offset :| FitsBlock(s, offset, scale);
    if x.Valid? && !Sentinel(EncodeSample(x, mean, scale)) && Count(s) > 0 {
      var n := Count(s) as real;
      var m := Sum(s) / n;
      if Deviation(s, m) > 0.0 || m != 0.0 {
        HalfAScale(DecodeByte(EncodeSample(x, mean, scale), mean, scale) - x.x, scale, n, Deviation(s, m) + 0.0000000001 * Square(m) * n);
      }
    }
  }
}
