/**
  Encoding one beam and coarse frequency of a packet: accumulate in one pass, derive a scale and an offset, round
  every sample to a byte.
*/
module PacketEncode {
  import opened EncodeBound

  /** A sample counts if its weight reaches the cutoff. */
  function Weighted(x: real, w: real, cutoff: real): Sample {
    if w >= cutoff then Valid(x) else Masked
  }

  function Samples(xs: seq<real>, ws: seq<real>, cutoff: real): (s: seq<Sample>)
    requires |xs| == |ws|
    ensures |s| == |xs|
    ensures forall k :: 0 <= k < |xs| ==> s[k] == Weighted(xs[k], ws[k], cutoff)
  {
    if xs == [] then [] else Samples(xs[..|xs| - 1], ws[..|ws| - 1], cutoff) + [Weighted(xs[|xs| - 1], ws[|ws| - 1], cutoff)]
  }

  lemma SamplesPrefix(xs: seq<real>, ws: seq<real>, cutoff: real, k: nat)
    requires |xs| == |ws| && k < |xs|
    ensures Samples(xs[..k + 1], ws[..k + 1], cutoff) == Samples(xs[..k], ws[..k], cutoff) + [Weighted(xs[k], ws[k], cutoff)]
  {
    assert xs[..k + 1][..k] == xs[..k] && ws[..k + 1][..k] == ws[..k];
  }

  /**
    No valid samples: everything is masked.  A scale of zero, which happens when all valid samples are zero, makes
    the program divide by zero.
  */
  datatype Outcome = AllMasked(bytes: seq<uint8>) | Encoded(scale: real, offset: real, bytes: seq<uint8>) | DividesByZero

  lemma AppendSums(s: seq<Sample>, x: Sample)
    ensures Count(s + [x]) == Count(s) + if x.Valid? then 1 else 0
    ensures Sum(s + [x]) == Sum(s) + if x.Valid? then x.x else 0.0
    ensures SumSquares(s + [x]) == SumSquares(s) + if x.Valid? then Square(x.x) else 0.0
  {
    assert (s + [x])[..|s|] == s;
  }

  /** The weight as a number, and the three accumulators. */
  method Accumulate(xs: seq<real>, ws: seq<real>, cutoff: real) returns (acc0: real, acc1: real, acc2: real)
    requires |xs| == |ws|
    ensures var s := Samples(xs, ws, cutoff);
            acc0 == Count(s) as real && acc1 == Sum(s) && acc2 == SumSquares(s)
  {
    acc0, acc1, acc2 := 0.0, 0.0, 0.0;
    for k := 0 to |xs|
      invariant var s := Samples(xs[..k], ws[..k], cutoff);
                acc0 == Count(s) as real && acc1 == Sum(s) && acc2 == SumSquares(s)
    {
      var x := xs[k];
      var w := if ws[k] >= cutoff then 1.0 else 0.0;
      SamplesPrefix(xs, ws, cutoff, k);
      AppendSums(Samples(xs[..k], ws[..k], cutoff), Weighted(x, ws[k], cutoff));
      assert w * x * x == if ws[k] >= cutoff then Square(x) else 0.0;
      acc0 := acc0 + w;
      acc1 := acc1 + w * x;
      acc2 := acc2 + w * x * x;
    }
    assert xs[..|xs|] == xs && ws[..|ws|] == ws;
  }

  /** One byte: masked samples are multiplied by weight zero. */
  method EncodeByte(x0: real, w: real, offset: real, scale: real, ghost s: Sample, ghost mean: real) returns (d: uint8)
    requires scale > 0.0 && offset == Offset(mean, scale)
    requires match s case Masked => w == 0.0 case Valid(v) => w == 1.0 && v == x0
    ensures d == EncodeSample(s, mean, scale)
  {
    hide Offset;
    var x := w * (x0 - offset) / scale;
    assert s.Masked? ==> x == 0.0;
    assert s.Valid? ==> x == Position(x0, mean, scale);
    x := Min(x, 255.0);
    x := Max(x, 0.0);
    ClampEitherWay(if s.Valid? then Position(x0, mean, scale) else 0.0);
    d := (x + 0.5).Floor;
  }

  lemma ClampEitherWay(y: real)
    ensures Max(Min(y, 255.0), 0.0) == Clamp(y) && 0 <= Round(Clamp(y)) <= 255
    ensures y == 0.0 ==> Round(Clamp(y)) == 0
  {
  }

  /** The whole block. */
  method EncodeBlock(xs: seq<real>, ws: seq<real>, cutoff: real, root: real -> real) returns (r: Outcome)
    requires |xs| == |ws| && IsRoot(root)
    ensures var s := Samples(xs, ws, cutoff);
            && (r.AllMasked? <==> Count(s) == 0)
            && (r.DividesByZero? <==> Count(s) > 0 && AllZero(s))
            && (r.AllMasked? ==> |r.bytes| == |xs| && forall k :: 0 <= k < |xs| ==> r.bytes[k] == 0)
            && (r.Encoded? ==>
                  && Count(s) > 0 && r.scale == PacketScale(s, root) > 0.0 && r.offset == Offset(PacketMean(s), r.scale)
                  && FitsPacket(s, r.offset, r.scale)
                  && |r.bytes| == |xs|
                  && forall k :: 0 <= k < |xs| ==> r.bytes[k] == EncodeSample(s[k], PacketMean(s), r.scale))
  {
    hide Count, Sum, SumSquares, AllZero, EncodeSample, FitsPacket;
    ghost var s := Samples(xs, ws, cutoff);
    var acc0, acc1, acc2 := Accumulate(xs, ws, cutoff);
    if acc0 <= 0.0 {
      return AllMasked(seq(|xs|, _ => 0));
    }
    var mean := acc1 / acc0;
    var v := acc2 / acc0 - mean * mean;
    v := Max(v, 0.00001 * mean * mean);
    MeanSquared(mean);
    assert v == PacketVariance(s);
    PacketScaleIsPositiveIff(s, root);
    PacketIsFitted(s, root);
    var scale := root(v) / 25.0;
    if scale == 0.0 {
      return DividesByZero;
    }
    assert root(v) >= 0.0;
    var offset := -128.0 * scale + mean;
    var bytes: seq<uint8> := [];
    for k := 0 to |xs|
      invariant |bytes| == k && forall j :: 0 <= j < k ==> bytes[j] == EncodeSample(s[j], mean, scale)
    {
      var w := if ws[k] >= cutoff then 1.0 else 0.0;
      var d := EncodeByte(xs[k], w, offset, scale, s[k], mean);
      bytes := bytes + [d];
    }
    r := Encoded(scale, offset, bytes);
  }

  lemma MeanSquared(mean: real)
    ensures mean * mean == Square(mean) && 0.00001 * mean * mean == 0.00001 * Square(mean)
  {
  }

  /** A single sample that is zero, with enough weight. */
  lemma BlockThatDividesByZero()
    ensures var s := Samples([0.0], [1.0], 0.5); Count(s) > 0 && AllZero(s)
  {
    var s := Samples([0.0], [1.0], 0.5);
    assert s == [Valid(0.0)];
    assert Count(s) == Count([]) + 1;
  }

  /** What encoding promises of a block that is not degenerate. */
  lemma PacketSamplesAreGood(s: seq<Sample>, root: real -> real, k: nat)
    requires IsRoot(root) && Count(s) > 0 && !AllZero(s) && k < |s|
    ensures PacketScale(s, root) > 0.0
    ensures 25 * Sentinels(s, PacketMean(s), PacketScale(s, root)) <= Count(s)
    ensures var mean, scale := PacketMean(s), PacketScale(s, root);
            var d := EncodeSample(s[k], mean, scale);
            && (s[k].Masked? ==> Sentinel(d))
            && (s[k].Valid? && !Sentinel(d) ==> -scale / 2.0 <= DecodeByte(d, mean, scale) - s[k].x <= scale / 2.0)
    ensures FitsPacket(s, Offset(PacketMean(s), PacketScale(s, root)), PacketScale(s, root))
  {
    hide Count, AllZero, Sentinels, PacketMean, PacketScale, EncodeSample, DecodeByte;
    PacketBlockBound(s, root);
    PacketIsFitted(s, root);
    hide FitsPacket;
    var mean, scale := PacketMean(s), PacketScale(s, root);
    match s[k]
    case Masked => MaskedStaysMasked(mean, scale);
    case Valid(v) => if !Sentinel(EncodeSample(s[k], mean, scale)) { SurvivorIsClose(v, mean, scale); }
  }
}
