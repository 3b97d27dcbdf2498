/**
  Decoding a chunk to intensities and weights, over the reals: the reference loops, any window of a row, and the
  vectorized form that shuffles 32 bytes into eight words of four.
*/
module FastDecode {
  import opened EncodeBound
  import opened FastEncode
  import opened FastLanes
  import opened Products

  /** One row of a chunk: its bytes, and a scale and an offset for every packet of `ntp` samples. */
  datatype Row = Row(data: seq<uint8>, scales: seq<real>, offsets: seq<real>, ntp: nat)

  predicate ValidRow(r: Row) {
    r.ntp > 0 && |r.scales| == |r.offsets| && |r.data| == r.ntp * |r.scales|
  }

  lemma PacketOf(r: Row, t: nat)
    requires ValidRow(r) && t < |r.data|
    ensures t / r.ntp < |r.scales|
  {
    var q := t / r.ntp;
    assert r.ntp * q <= t;
    if q >= |r.scales| { Grows(r.ntp, |r.scales|, q); }
  }

  /** The intensity that sample t stands for, and its weight. */
  function Intensity(r: Row, prescale: real, t: nat): real
    requires ValidRow(r) && t < |r.data|
  {
    PacketOf(r, t);
    (r.scales[t / r.ntp] * prescale) * (r.data[t] as real) + r.offsets[t / r.ntp] * prescale
  }

  /** Sample k of packet c: prescale times what its byte stands for. */
  lemma IntensityIs(r: Row, prescale: real, c: nat, k: nat)
    requires ValidRow(r) && c < |r.scales| && k < r.ntp
    ensures r.ntp * c + k < |r.data|
    ensures Intensity(r, prescale, r.ntp * c + k) == prescale * (r.scales[c] * (r.data[r.ntp * c + k] as real) + r.offsets[c])
  {
    Grows(r.ntp, c + 1, |r.scales|);
    Distributes(r.ntp, c, 1);
    QuotientIs(r.ntp * c + k, r.ntp, c, k);
    ScaledSum(prescale, r.scales[c], r.data[r.ntp * c + k] as real, r.offsets[c]);
  }

  lemma ScaledSum(p: real, s: real, x: real, o: real)
    ensures (s * p) * x + o * p == p * (s * x + o)
  {
    assert p * (s * x + o) == p * (s * x) + p * o;
    assert (s * p) * x == p * (s * x);
  }

  function Weight(d: uint8): real {
    if d == 0 || d == 255 then 0.0 else 1.0
  }

  /** Position i holds sample i-at+from, decoded. */
  predicate SampleDecoded(r: Row, prescale: real, intensity: seq<real>, weights: seq<real>, at: nat, from: nat, i: nat)
    requires ValidRow(r) && at <= i
  {
    var t := i - at + from;
    && t < |r.data| && i < |intensity| && i < |weights|
    && intensity[i] == Intensity(r, prescale, t) && weights[i] == Weight(r.data[t])
  }

  /** n samples, from sample `from` on, are stored from position `at` on, and everything else is as it was. */
  predicate Decoded(r: Row, prescale: real, i0: seq<real>, w0: seq<real>, intensity: seq<real>, weights: seq<real>,
                    at: nat, from: nat, n: nat)
    requires ValidRow(r)
  {
    && |intensity| == |i0| && |weights| == |w0|
    && (forall i :: at <= i < at + n ==> SampleDecoded(r, prescale, intensity, weights, at, from, i))
    && (forall i :: 0 <= i < |intensity| && !(at <= i < at + n) ==> intensity[i] == i0[i])
    && (forall i :: 0 <= i < |weights| && !(at <= i < at + n) ==> weights[i] == w0[i])
  }

  // ------------------------------------------------------------------------------------------------
  // The reference

  /** Packet by packet. */
  method DecodeRow(r: Row, prescale: real, intensity: array<real>, weights: array<real>, at: nat)
    requires ValidRow(r) && intensity != weights && at + |r.data| <= intensity.Length && at + |r.data| <= weights.Length
    modifies intensity, weights
    ensures Decoded(r, prescale, old(intensity[..]), old(weights[..]), intensity[..], weights[..], at, 0, |r.data|)
  {
    hide Decoded;
    ghost var i0, w0 := intensity[..], weights[..];
    NoneDecoded(r, prescale, i0, w0, at);
    for c := 0 to |r.scales|
      invariant Decoded(r, prescale, i0, w0, intensity[..], weights[..], at, 0, c * r.ntp)
    {
      PacketSpan(r, c);
      DecodePacket(r, prescale, intensity, weights, at, c, c * r.ntp, (c + 1) * r.ntp, i0, w0);
    }
  }

  lemma NoneDecoded(r: Row, prescale: real, i0: seq<real>, w0: seq<real>, at: nat)
    requires ValidRow(r)
    ensures Decoded(r, prescale, i0, w0, i0, w0, at, 0, 0)
  {
  }

  /** Samples `from` to `to`, all of packet c. */
  method DecodePacket(r: Row, prescale: real, intensity: array<real>, weights: array<real>, at: nat, c: nat, from: nat, to: nat,
                      ghost i0: seq<real>, ghost w0: seq<real>)
    requires ValidRow(r) && intensity != weights && at + |r.data| <= intensity.Length && at + |r.data| <= weights.Length
    requires c < |r.scales| && from == c * r.ntp && to == (c + 1) * r.ntp && from <= to <= |r.data|
    requires Decoded(r, prescale, i0, w0, intensity[..], weights[..], at, 0, from)
    modifies intensity, weights
    ensures Decoded(r, prescale, i0, w0, intensity[..], weights[..], at, 0, to)
  {
    hide Decoded, Intensity, Weight;
    var scale, offset := r.scales[c] * prescale, r.offsets[c] * prescale;
    for t := from to to
      invariant Decoded(r, prescale, i0, w0, intensity[..], weights[..], at, 0, t)
    {
      var x := r.data[t] as real;
      IntensityInPacket(r, prescale, c, t);
      StoredSample(r, prescale, i0, w0, intensity[..], weights[..], at, 0, t);
      StoreOne(r, prescale, intensity, weights, at + t, scale * x + offset, if x == 0.0 || x == 255.0 then 0.0 else 1.0, 0 + t);
    }
  }

  /** Two stores, of the right intensity and weight. */
  method StoreOne(r: Row, prescale: real, intensity: array<real>, weights: array<real>, i: nat, x: real, w: real, ghost t: nat)
    requires ValidRow(r) && intensity != weights && i < intensity.Length && i < weights.Length && t < |r.data|
    requires x == Intensity(r, prescale, t) && w == Weight(r.data[t])
    modifies intensity, weights
    ensures intensity[..] == old(intensity[..])[i := Intensity(r, prescale, t)]
    ensures weights[..] == old(weights[..])[i := Weight(r.data[t])]
  {
    intensity[i] := x;
    weights[i] := w;
  }

  lemma PacketSpan(r: Row, c: nat)
    requires ValidRow(r) && c < |r.scales|
    ensures 0 <= c * r.ntp <= (c + 1) * r.ntp <= |r.data|
  {
    Grows(r.ntp, c + 1, |r.scales|);
    assert (c + 1) * r.ntp == c * r.ntp + r.ntp;
  }

  lemma IntensityInPacket(r: Row, prescale: real, c: nat, t: nat)
    requires ValidRow(r) && c < |r.scales| && c * r.ntp <= t < (c + 1) * r.ntp && t < |r.data|
    ensures Intensity(r, prescale, t) == (r.scales[c] * prescale) * (r.data[t] as real) + r.offsets[c] * prescale
    ensures Weight(r.data[t]) == if r.data[t] as real == 0.0 || r.data[t] as real == 255.0 then 0.0 else 1.0
  {
    assert (c + 1) * r.ntp == c * r.ntp + r.ntp;
    QuotientIs(t, r.ntp, c, t - c * r.ntp);
  }

  lemma StoredSample(r: Row, prescale: real, i0: seq<real>, w0: seq<real>, intensity: seq<real>, weights: seq<real>,
                     at: nat, from: nat, n: nat)
    requires ValidRow(r) && from + n < |r.data| && at + n < |intensity| && at + n < |weights|
    requires Decoded(r, prescale, i0, w0, intensity, weights, at, from, n)
    ensures Decoded(r, prescale, i0, w0, intensity[at + n := Intensity(r, prescale, from + n)],
                    weights[at + n := Weight(r.data[from + n])], at, from, n + 1)
  {
    hide Intensity, Weight;
    var intensity1, weights1 := intensity[at + n := Intensity(r, prescale, from + n)], weights[at + n := Weight(r.data[from + n])];
    forall i | at <= i < at + (n + 1) ensures SampleDecoded(r, prescale, intensity1, weights1, at, from, i) {
      if i != at + n { assert SampleDecoded(r, prescale, intensity, weights, at, from, i); }
    }
  }

  /** A window of a row, which looks up the packet of every sample; what a full decoding holds there, unscaled. */
  method DecodeSubset(r: Row, t0: nat, n: nat, intensity: array<real>, weights: array<real>, at: nat)
    requires ValidRow(r) && t0 + n <= |r.data|
    requires intensity != weights && at + n <= intensity.Length && at + n <= weights.Length
    modifies intensity, weights
    ensures Decoded(r, 1.0, old(intensity[..]), old(weights[..]), intensity[..], weights[..], at, t0, n)
  {
    hide Weight;
    ghost var i0, w0 := intensity[..], weights[..];
    for i := 0 to n
      invariant Decoded(r, 1.0, i0, w0, intensity[..], weights[..], at, t0, i)
    {
      var it := t0 + i;
      PacketOf(r, it);
      var itCoarse := it / r.ntp;
      var scale, offset := r.scales[itCoarse], r.offsets[itCoarse];
      var x := r.data[it] as real;
      StoredSample(r, 1.0, i0, w0, intensity[..], weights[..], at, t0, i);
      WeightIs(r.data[it]);
      intensity[at + i] := scale * x + offset;
      weights[at + i] := if x == 0.0 || x == 255.0 then 0.0 else 1.0;
      assert scale * x + offset == Intensity(r, 1.0, it);
    }
  }

  lemma WeightIs(d: uint8)
    ensures Weight(d) == if d as real == 0.0 || d as real == 255.0 then 0.0 else 1.0
  {
  }

  /** Decoding a window is the window of a full decoding. */
  lemma WindowOfDecoding(r: Row, i0: seq<real>, w0: seq<real>, full: seq<real>, fullWeights: seq<real>,
                         j0: seq<real>, v0: seq<real>, part: seq<real>, partWeights: seq<real>, t0: nat, n: nat)
    requires ValidRow(r) && t0 + n <= |r.data|
    requires Decoded(r, 1.0, i0, w0, full, fullWeights, 0, 0, |r.data|)
    requires Decoded(r, 1.0, j0, v0, part, partWeights, 0, t0, n) && |part| == |partWeights| == n && t0 + n <= |full| && t0 + n <= |fullWeights|
    ensures part == full[t0..t0 + n] && partWeights == fullWeights[t0..t0 + n]
  {
    hide Intensity, Weight;
    forall i | 0 <= i < n ensures part[i] == full[t0 + i] && partWeights[i] == fullWeights[t0 + i] {
      assert SampleDecoded(r, 1.0, part, partWeights, 0, t0, i);
      assert SampleDecoded(r, 1.0, full, fullWeights, 0, 0, t0 + i);
    }
  }

  // ------------------------------------------------------------------------------------------------
  // Thirty-two bytes, as eight words of every eighth byte

  /** Swaps neighbouring words. */
  function SwapNeighbours(x: seq<Bytes>): (r: seq<Bytes>)
    requires Words(x)
    ensures Words(r)
  {
    [x[1], x[0], x[3], x[2], x[5], x[4], x[7], x[6]]
  }

  /** The byte shuffle: word k of a lane gets byte k of the words 1, 3, 0 and 2 of the lane. */
  function GatherLane(a: Bytes, b: Bytes, c: Bytes, d: Bytes, k: nat): (w: Bytes)
    requires |a| == |b| == |c| == |d| == 4 && k < 4
    ensures |w| == 4
  {
    [b[k], d[k], a[k], c[k]]
  }

  function ShuffleBytes(x: seq<Bytes>): (r: seq<Bytes>)
    requires Words(x)
    ensures Words(r)
  {
    [GatherLane(x[0], x[1], x[2], x[3], 0), GatherLane(x[0], x[1], x[2], x[3], 1),
     GatherLane(x[0], x[1], x[2], x[3], 2), GatherLane(x[0], x[1], x[2], x[3], 3),
     GatherLane(x[4], x[5], x[6], x[7], 0), GatherLane(x[4], x[5], x[6], x[7], 1),
     GatherLane(x[4], x[5], x[6], x[7], 2), GatherLane(x[4], x[5], x[6], x[7], 3)]
  }

  function LoadWords(d: Bytes, at: nat): (r: seq<Bytes>)
    requires at + 32 <= |d|
    ensures Words(r)
  {
    [d[at..at + 4], d[at + 4..at + 8], d[at + 8..at + 12], d[at + 12..at + 16],
     d[at + 16..at + 20], d[at + 20..at + 24], d[at + 24..at + 28], d[at + 28..at + 32]]
  }

  function Spread(x: seq<Bytes>): (r: seq<Bytes>)
    requires Words(x)
    ensures Words(r)
  {
    var y, z := SwapNeighbours(x), SwapLanes(x);
    ShuffleBytes(Blend(y, z, [true, false, true, false, false, true, false, true]))
  }

  lemma SpreadWords(x: seq<Bytes>)
    requires Words(x)
    ensures var r := Spread(x);
            forall w :: 0 <= w < 4 ==> r[w] == [x[0][w], x[2][w], x[4][w], x[6][w]] && r[4 + w] == [x[1][w], x[3][w], x[5][w], x[7][w]]
  {
    hide GatherLane;
    var r := Spread(x);
    forall w | 0 <= w < 4
      ensures r[w] == [x[0][w], x[2][w], x[4][w], x[6][w]] && r[4 + w] == [x[1][w], x[3][w], x[5][w], x[7][w]]
    {
      assert r[w] == GatherLane(x[4], x[0], x[6], x[2], w);
      assert r[4 + w] == GatherLane(x[5], x[1], x[7], x[3], w);
      GatherLaneIs(x[4], x[0], x[6], x[2], w);
      GatherLaneIs(x[5], x[1], x[7], x[3], w);
    }
  }

  lemma GatherLaneIs(a: Bytes, b: Bytes, c: Bytes, d: Bytes, k: nat)
    requires |a| == |b| == |c| == |d| == 4 && k < 4
    ensures GatherLane(a, b, c, d, k) == [b[k], d[k], a[k], c[k]]
  {
  }

  /** Byte c of word w is byte 8c+w of the input. */
  lemma SpreadAt(d: Bytes, at: nat, c: nat, w: nat)
    requires at + 32 <= |d| && c < 4 && w < 8
    ensures Spread(LoadWords(d, at))[w][c] == d[at + 8 * c + w]
  {
    hide Spread;
    var x := LoadWords(d, at);
    SpreadWords(x);
    if w < 4 {
      assert Spread(x)[w][c] == x[2 * c][w];
    } else {
      assert Spread(x)[4 + (w - 4)][c] == x[2 * c + 1][w - 4];
    }
  }

  /** A 32-bit word, low byte first. */
  function WordValue(b: Bytes): nat
    requires |b| == 4
  {
    var b0: nat, b1: nat, b2: nat, b3: nat := b[0], b[1], b[2], b[3];
    b0 + 256 * b1 + 65536 * b2 + 16777216 * b3
  }

  /** Shift right by 8c bits and keep eight. */
  function ShiftAndMask(v: nat, c: nat): nat
    requires c < 4
  {
    if c == 0 then v % 256 else if c == 1 then v / 256 % 256 else if c == 2 then v / 65536 % 256 else v / 16777216
  }

  lemma ExtractsByte(b: Bytes, c: nat)
    requires |b| == 4 && c < 4
    ensures ShiftAndMask(WordValue(b), c) == b[c]
  {
    var v := WordValue(b);
    var b1: nat, b2: nat, b3: nat := b[1], b[2], b[3];
    assert v / 256 == b1 + 256 * b2 + 65536 * b3;
    assert v / 65536 == b2 + 256 * b3;
    assert v / 16777216 == b3;
  }

  /** Comparing every byte with 0x00 and 0xff, then picking byte c: 0xff where masked. */
  function MaskWord(b: Bytes): (m: Bytes)
    requires |b| == 4
    ensures |m| == 4
  {
    [MaskOf(b[0]), MaskOf(b[1]), MaskOf(b[2]), MaskOf(b[3])]
  }

  function MaskOf(d: uint8): uint8 { if d == 0 || d == 255 then 255 else 0 }

  /** One weight: 1 where the mask lane is zero. */
  function LaneWeight(mask32: nat): real { if mask32 == 0 then 1.0 else 0.0 }

  lemma LaneWeightIs(b: Bytes, c: nat)
    requires |b| == 4 && c < 4
    ensures LaneWeight(ShiftAndMask(WordValue(MaskWord(b)), c)) == Weight(b[c])
  {
    hide ShiftAndMask, WordValue;
    ExtractsByte(MaskWord(b), c);
  }

  /** The scale or offset of packet p, times the prescale, in all lanes. */
  predicate Prescaled(l: Lanes, p: seq<real>, prescale: real, i: nat)
    requires i < |p|
  {
    forall w :: 0 <= w < 8 ==> l[w] == p[i] * prescale
  }

  /** Eight samples: every lane holds its intensity and weight. */
  lemma LaneDecodes(r: Row, prescale: real, at: nat, c: nat, w: nat, sca: Lanes, off: Lanes)
    requires ValidRow(r) && r.ntp == 16 && at % 32 == 0 && at + 32 <= |r.data| && c < 4 && w < 8
    requires at / 16 + c / 2 < |r.scales|
    requires Prescaled(sca, r.scales, prescale, at / 16 + c / 2) && Prescaled(off, r.offsets, prescale, at / 16 + c / 2)
    ensures var b := Spread(LoadWords(r.data, at))[w];
            && sca[w] * (ShiftAndMask(WordValue(b), c) as real) + off[w] == Intensity(r, prescale, at + 8 * c + w)
            && LaneWeight(ShiftAndMask(WordValue(MaskWord(b)), c)) == Weight(r.data[at + 8 * c + w])
  {
    hide Spread, LoadWords, ShiftAndMask, WordValue, MaskWord, LaneWeight, Weight;
    var b := Spread(LoadWords(r.data, at))[w];
    SpreadAt(r.data, at, c, w);
    ExtractsByte(b, c);
    LaneWeightIs(b, c);
    var t := at + 8 * c + w;
    PacketNumber(at, c, w);
    var p := at / 16 + c / 2;
    assert Intensity(r, prescale, t) == (r.scales[p] * prescale) * (r.data[t] as real) + r.offsets[p] * prescale;
  }

  lemma PacketNumber(at: nat, c: nat, w: nat)
    requires at % 32 == 0 && c < 4 && w < 8
    ensures (at + 8 * c + w) / 16 == at / 16 + c / 2
  {
    var q := at / 32;
    assert at == 32 * q && at / 16 == 2 * q;
    if c < 2 {
      assert (32 * q + 8 * c + w) / 16 == 2 * q;
    } else {
      assert (32 * q + 8 * c + w) / 16 == 2 * q + 1;
    }
  }

  /** Stores eight intensities and weights. */
  method Decode8(r: Row, prescale: real, intensity: array<real>, weights: array<real>, at: nat, t: nat, c: nat,
                 words: seq<Bytes>, sca: Lanes, off: Lanes, ghost i0: seq<real>, ghost w0: seq<real>)
    requires ValidRow(r) && r.ntp == 16 && t % 32 == 0 && t + 32 <= |r.data| && c < 4
    requires intensity != weights && at + |r.data| <= intensity.Length && at + |r.data| <= weights.Length
    requires Words(words) && words == Spread(LoadWords(r.data, t)) && t / 16 + c / 2 < |r.scales|
    requires Prescaled(sca, r.scales, prescale, t / 16 + c / 2) && Prescaled(off, r.offsets, prescale, t / 16 + c / 2)
    requires Decoded(r, prescale, i0, w0, intensity[..], weights[..], at, 0, t + 8 * c)
    modifies intensity, weights
    ensures Decoded(r, prescale, i0, w0, intensity[..], weights[..], at, 0, t + 8 * c + 8)
  {
    hide Spread, LoadWords, ShiftAndMask, WordValue, MaskWord, LaneWeight, Weight, Intensity, Decoded, Prescaled;
    SameSize(r, prescale, i0, w0, intensity[..], weights[..], at, t + 8 * c);
    for w := 0 to 8
      invariant Decoded(r, prescale, i0, w0, intensity[..], weights[..], at, 0, t + 8 * c + w)
    {
      LaneDecodes(r, prescale, t, c, w, sca, off);
      StoredSample(r, prescale, i0, w0, intensity[..], weights[..], at, 0, t + 8 * c + w);
      ghost var n := t + 8 * c + w;
      SameSize(r, prescale, i0, w0, intensity[..], weights[..], at, n);
      var x := sca[w] * (ShiftAndMask(WordValue(words[w]), c) as real) + off[w];
      StoreOne(r, prescale, intensity, weights, at + t + 8 * c + w, x,
               LaneWeight(ShiftAndMask(WordValue(MaskWord(words[w])), c)), 0 + n);
    }
  }

  lemma SameSize(r: Row, prescale: real, i0: seq<real>, w0: seq<real>, intensity: seq<real>, weights: seq<real>, at: nat, n: nat)
    requires ValidRow(r) && Decoded(r, prescale, i0, w0, intensity, weights, at, 0, n)
    ensures |intensity| == |i0| && |weights| == |w0|
  {
  }

  /** Thirty-two samples, with the scales and offsets of two packets. */
  method Decode32(r: Row, prescale: real, intensity: array<real>, weights: array<real>, at: nat, t: nat, n: nat,
                  scales: Upsample8, offsets: Upsample8, ghost i0: seq<real>, ghost w0: seq<real>)
    requires ValidRow(r) && r.ntp == 16 && t % 32 == 0 && t + 32 <= |r.data| && n < 4
    requires intensity != weights && at + |r.data| <= intensity.Length && at + |r.data| <= weights.Length
    requires t / 16 + 1 < |r.scales|
    requires Prescaled(Get(scales, 2 * n), r.scales, prescale, t / 16)
    requires Prescaled(Get(scales, 2 * n + 1), r.scales, prescale, t / 16 + 1)
    requires Prescaled(Get(offsets, 2 * n), r.offsets, prescale, t / 16)
    requires Prescaled(Get(offsets, 2 * n + 1), r.offsets, prescale, t / 16 + 1)
    requires Decoded(r, prescale, i0, w0, intensity[..], weights[..], at, 0, t)
    modifies intensity, weights
    ensures Decoded(r, prescale, i0, w0, intensity[..], weights[..], at, 0, t + 32)
  {
    hide Spread, LoadWords, Prescaled, Decoded, Get;
    var words := Spread(LoadWords(r.data, t));
    var sca0, off0 := Get(scales, 2 * n), Get(offsets, 2 * n);
    Decode8(r, prescale, intensity, weights, at, t, 0, words, sca0, off0, i0, w0);
    Decode8(r, prescale, intensity, weights, at, t, 1, words, sca0, off0, i0, w0);
    sca0, off0 := Get(scales, 2 * n + 1), Get(offsets, 2 * n + 1);
    Decode8(r, prescale, intensity, weights, at, t, 2, words, sca0, off0, i0, w0);
    Decode8(r, prescale, intensity, weights, at, t, 3, words, sca0, off0, i0, w0);
  }

  /** 128 samples, with the scales and offsets of eight packets. */
  method Decode128(r: Row, prescale: real, intensity: array<real>, weights: array<real>, at: nat, i: nat,
                   ghost i0: seq<real>, ghost w0: seq<real>)
    requires ValidRow(r) && r.ntp == 16 && 128 * i + 128 <= |r.data|
    requires intensity != weights && at + |r.data| <= intensity.Length && at + |r.data| <= weights.Length
    requires Decoded(r, prescale, i0, w0, intensity[..], weights[..], at, 0, 128 * i)
    modifies intensity, weights
    ensures Decoded(r, prescale, i0, w0, intensity[..], weights[..], at, 0, 128 * i + 128)
  {
    hide Decoded, Prescaled, Upsample, Times, LoadLanes, Get;
    var sca := Upsample(Times(LoadLanes(r.scales, 8 * i), prescale));
    var off := Upsample(Times(LoadLanes(r.offsets, 8 * i), prescale));
    for n := 0 to 4
      invariant Decoded(r, prescale, i0, w0, intensity[..], weights[..], at, 0, 128 * i + 32 * n)
    {
      var t := 128 * i + 32 * n;
      assert t % 32 == 0 && t / 16 == 8 * i + 2 * n;
      PrescaledLanes(r.scales, prescale, 8 * i, 2 * n);
      PrescaledLanes(r.scales, prescale, 8 * i, 2 * n + 1);
      PrescaledLanes(r.offsets, prescale, 8 * i, 2 * n);
      PrescaledLanes(r.offsets, prescale, 8 * i, 2 * n + 1);
      Decode32(r, prescale, intensity, weights, at, t, n, sca, off, i0, w0);
    }
  }

  lemma PrescaledLanes(p: seq<real>, prescale: real, at: nat, n: nat)
    requires at + 8 <= |p| && n < 8
    ensures Prescaled(Get(Upsample(Times(LoadLanes(p, at), prescale)), n), p, prescale, at + n)
  {
    hide Get, Upsample;
    var x := Times(LoadLanes(p, at), prescale);
    forall w | 0 <= w < 8 ensures Get(Upsample(x), n)[w] == p[at + n] * prescale {
      Broadcasts(x, n, w);
    }
  }

  /** The vectorized row: the same contract as the reference. */
  method FastDecodeRow(r: Row, prescale: real, intensity: array<real>, weights: array<real>, at: nat)
    requires ValidRow(r) && r.ntp == 16 && |r.data| % 128 == 0
    requires intensity != weights && at + |r.data| <= intensity.Length && at + |r.data| <= weights.Length
    modifies intensity, weights
    ensures Decoded(r, prescale, old(intensity[..]), old(weights[..]), intensity[..], weights[..], at, 0, |r.data|)
  {
    ghost var i0, w0 := intensity[..], weights[..];
    for i := 0 to |r.data| / 128
      invariant Decoded(r, prescale, i0, w0, intensity[..], weights[..], at, 0, 128 * i)
    {
      Decode128(r, prescale, intensity, weights, at, i, i0, w0);
    }
  }
}
