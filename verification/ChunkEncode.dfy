/**
  From a chunk of intensities to packets: every packet is one that receivers accept, and every sample is in exactly one
  of them, encoded with the scale and the offset of its block.
*/
module ChunkEncode {
  import opened BeamSplit
  import opened BitMatrix
  import opened ChunkAssembly
  import opened EncodeBound
  import opened PacketEncode
  import opened PacketFormat
  import opened Products

  const MAX_OUTPUT_PACKET_SIZE := 8910
  const MAX_NUPFREQ := 64

  /** A sender: packets of nfp frequencies and ntp samples, nfOuter by ntOuter packets to a chunk. */
  datatype Stream = Stream(beamIds: seq<nat>, freqIds: seq<nat>, nfp: nat, nfOuter: nat, nupfreq: nat,
                           ntp: nat, ntOuter: nat, fps: nat, cutoff: real)

  /** What the constructor has checked. */
  predicate ValidStream(st: Stream) {
    && 0 < |st.beamIds| < 65536 && (forall i :: 0 <= i < |st.beamIds| ==> st.beamIds[i] < 65536)
    && |st.freqIds| == At(st.nfOuter, st.nfp, 0) && |st.freqIds| < 65536 && 0 < st.nfp
    && (forall i :: 0 <= i < |st.freqIds| ==> st.freqIds[i] < NFREQ_COARSE)
    && (forall i, j :: 0 <= i < j < |st.freqIds| ==> st.freqIds[i] != st.freqIds[j])
    && 0 < st.nupfreq <= MAX_NUPFREQ && PowerOfTwo(st.ntp) && st.ntp <= MAX_NT_PER_PACKET && 0 < st.fps < 65536
    && HeaderSize(HeaderOf(st, 0)) + DataBytes(HeaderOf(st, 0)) <= MAX_OUTPUT_PACKET_SIZE
  }

  function HeaderOf(st: Stream, fpga: nat): Header {
    Header(1, At(At(At(|st.beamIds|, st.nfp, 0), st.nupfreq, 0), st.ntp, 0), st.fps, fpga,
           |st.beamIds|, st.nfp, st.nupfreq, st.ntp)
  }

  /** An array of intensities or weights, and the distance of its rows. */
  datatype Field = Field(x: seq<real>, stride: nat)

  /** Position of (beam, frequency, fine frequency, sample). */
  function Position4(st: Stream, stride: nat, b: nat, f: nat, u: nat, t: nat): nat {
    At(At(At(b, |st.freqIds|, f), st.nupfreq, u), stride, t)
  }

  predicate ValidField(st: Stream, fi: Field) {
    && At(st.ntOuter, st.ntp, 0) <= fi.stride
    && |fi.x| == Position4(st, fi.stride, |st.beamIds|, 0, 0, 0)
  }

  lemma PositionInside(st: Stream, stride: nat, b: nat, f: nat, u: nat, t: nat)
    requires b < |st.beamIds| && f < |st.freqIds| && u < st.nupfreq && t < stride
    ensures Position4(st, stride, b, f, u, t) < Position4(st, stride, |st.beamIds|, 0, 0, 0)
  {
    hide At;
    AtBound(b, |st.beamIds|, |st.freqIds|, f);
    AtBound(At(b, |st.freqIds|, f), At(|st.beamIds|, |st.freqIds|, 0), st.nupfreq, u);
    AtBound(At(At(b, |st.freqIds|, f), st.nupfreq, u), At(At(|st.beamIds|, |st.freqIds|, 0), st.nupfreq, 0), stride, t);
  }

  /** Sample k of the block of one packet, one beam and one frequency: row by row. */
  function BlockValue(st: Stream, fi: Field, b: nat, f: nat, it: nat, k: nat): real
    requires ValidStream(st) && ValidField(st, fi)
    requires b < |st.beamIds| && f < |st.freqIds| && it < st.ntOuter && k < At(st.nupfreq, st.ntp, 0)
  {
    BlockIndex(st, fi.stride, b, f, it, k);
    fi.x[Position4(st, fi.stride, b, f, RowOf(k, st.ntp), At(it, st.ntp, ColumnOf(k, st.ntp)))]
  }

  lemma BlockIndex(st: Stream, stride: nat, b: nat, f: nat, it: nat, k: nat)
    requires ValidStream(st) && At(st.ntOuter, st.ntp, 0) <= stride
    requires b < |st.beamIds| && f < |st.freqIds| && it < st.ntOuter && k < At(st.nupfreq, st.ntp, 0)
    ensures st.ntp > 0
    ensures Position4(st, stride, b, f, RowOf(k, st.ntp), At(it, st.ntp, ColumnOf(k, st.ntp)))
            < Position4(st, stride, |st.beamIds|, 0, 0, 0)
  {
    hide At, HeaderSize, DataBytes, RowOf, ColumnOf;
    PositivePower(st.ntp);
    AtOfRow(k, st.nupfreq, st.ntp);
    AtBound(it, st.ntOuter, st.ntp, ColumnOf(k, st.ntp));
    PositionInside(st, stride, b, f, RowOf(k, st.ntp), At(it, st.ntp, ColumnOf(k, st.ntp)));
  }

  function BlockValues(st: Stream, fi: Field, b: nat, f: nat, it: nat): (v: seq<real>)
    requires ValidStream(st) && ValidField(st, fi) && b < |st.beamIds| && f < |st.freqIds| && it < st.ntOuter
    ensures |v| == At(st.nupfreq, st.ntp, 0) && forall k :: 0 <= k < |v| ==> v[k] == BlockValue(st, fi, b, f, it, k)
  {
    seq(At(st.nupfreq, st.ntp, 0), k requires 0 <= k < At(st.nupfreq, st.ntp, 0) => BlockValue(st, fi, b, f, it, k))
  }

  /** The samples of a block: those whose weight is below the cutoff do not count. */
  function BlockSamples(st: Stream, fi: Field, fw: Field, b: nat, f: nat, it: nat): (s: seq<Sample>)
    requires ValidStream(st) && ValidField(st, fi) && ValidField(st, fw)
    requires b < |st.beamIds| && f < |st.freqIds| && it < st.ntOuter
    ensures |s| == At(st.nupfreq, st.ntp, 0)
  {
    Samples(BlockValues(st, fi, b, f, it), BlockValues(st, fw, b, f, it), st.cutoff)
  }

  /** Where the encoder's pointers point: the offset of the packet, then beam, frequency, fine frequency and time. */
  function PointerSum(st: Stream, stride: nat, b: nat, io: nat, f: nat, u: nat, it: nat, t: nat): nat {
    var offset := At(At(At(io, st.nfp, 0), st.nupfreq, 0), stride, 0) + At(it, st.ntp, 0);
    var beamStride := At(At(|st.freqIds|, st.nupfreq, 0), stride, 0);
    offset + At(b, beamStride, 0) + At(At(f, st.nupfreq, 0), stride, 0) + At(u, stride, 0) + t
  }

  /** The pointer arithmetic reaches the same element. */
  lemma PointerPosition(st: Stream, stride: nat, b: nat, io: nat, f: nat, u: nat, it: nat, t: nat)
    requires ValidStream(st)
    ensures PointerSum(st, stride, b, io, f, u, it, t)
            == Position4(st, stride, b, At(io, st.nfp, f), u, At(it, st.ntp, t))
  {
    hide At, HeaderSize, DataBytes, PowerOfTwo;
    AtColumn(it, st.ntp, 0, t);
    var f' := At(io, st.nfp, f);
    AtColumn(io, st.nfp, 0, f);
    // rows
    NestedStart(b, |st.freqIds|, st.nupfreq);
    NestedStart(b, At(|st.freqIds|, st.nupfreq, 0), stride);
    AtColumn(b, |st.freqIds|, 0, f');
    AtRows(At(b, |st.freqIds|, 0), f', st.nupfreq, u);
    AtRows(At(io, st.nfp, 0), f, st.nupfreq, u);
    var rb, ri := At(At(b, |st.freqIds|, 0), st.nupfreq, 0), At(At(io, st.nfp, 0), st.nupfreq, 0);
    AtColumn(f, st.nupfreq, 0, u);
    var rf := At(f, st.nupfreq, 0);
    var tt := At(it, st.ntp, 0) + t;
    AtRows(rb, ri + rf + u, stride, tt);
    AtRows(ri, rf + u, stride, tt);
    AtRows(rf, u, stride, tt);
    AtColumn(u, stride, 0, tt);
  }

  predicate HasAt(fi: Field, p: nat, x: real) { p < |fi.x| && fi.x[p] == x }

  lemma BlockValueAt(st: Stream, fi: Field, b: nat, f: nat, it: nat, u: nat, t: nat)
    requires ValidStream(st) && ValidField(st, fi)
    requires b < |st.beamIds| && f < |st.freqIds| && u < st.nupfreq && it < st.ntOuter && t < st.ntp
    ensures At(u, st.ntp, t) < At(st.nupfreq, st.ntp, 0)
    ensures var p := Position4(st, fi.stride, b, f, u, At(it, st.ntp, t));
            HasAt(fi, p, BlockValue(st, fi, b, f, it, At(u, st.ntp, t)))
  {
    hide At, ValidStream, Position4;
    AtBound(u, st.nupfreq, st.ntp, t);
    RowOfAt(u, st.ntp, t);
    BlockIndex(st, fi.stride, b, f, it, At(u, st.ntp, t));
  }

  /** So a value of a block is read where the encoder's pointers point. */
  lemma BlockValueIsRead(st: Stream, fi: Field, b: nat, io: nat, f: nat, u: nat, it: nat, t: nat)
    requires ValidStream(st) && ValidField(st, fi)
    requires b < |st.beamIds| && io < st.nfOuter && f < st.nfp && u < st.nupfreq && it < st.ntOuter && t < st.ntp
    ensures At(io, st.nfp, f) < |st.freqIds| && At(u, st.ntp, t) < At(st.nupfreq, st.ntp, 0)
    ensures HasAt(fi, PointerSum(st, fi.stride, b, io, f, u, it, t), BlockValue(st, fi, b, At(io, st.nfp, f), it, At(u, st.ntp, t)))
  {
    FrequencyOf(st, io, f);
    hide At, ValidStream, ValidField, Position4, PointerSum, BlockValue, HasAt;
    BlockValueAt(st, fi, b, At(io, st.nfp, f), it, u, t);
    PointerPosition(st, fi.stride, b, io, f, u, it, t);
  }

  lemma FrequencyOf(st: Stream, io: nat, f: nat)
    requires ValidStream(st) && io < st.nfOuter && f < st.nfp
    ensures At(io, st.nfp, f) < |st.freqIds|
  {
    hide At, HeaderSize, DataBytes, PowerOfTwo;
    AtBound(io, st.nfOuter, st.nfp, f);
  }

  /** The element of beam b, frequency f, fine frequency u, and time t of window `it`, as a product index. */
  function ElementIndex(st: Stream, stride: nat, b: nat, f: nat, it: nat, u: nat, t: nat): nat {
    ((b * |st.freqIds| + f) * st.nupfreq + u) * stride + (it * st.ntp + t)
  }

  lemma PositionIsProduct(nf: nat, nu: nat, stride: nat, b: nat, f: nat, u: nat, t: nat)
    ensures At(At(At(b, nf, f), nu, u), stride, t) == ((b * nf + f) * nu + u) * stride + t
  {
    hide At;
    AtIsProduct(b, nf, f);
    AtIsProduct(At(b, nf, f), nu, u);
    AtIsProduct(At(At(b, nf, f), nu, u), stride, t);
  }

  /** A value of a block is that of its beam, frequency, fine frequency and time. */
  lemma BlockValueIs(st: Stream, fi: Field, b: nat, f: nat, it: nat, u: nat, t: nat)
    requires ValidStream(st) && ValidField(st, fi)
    requires b < |st.beamIds| && f < |st.freqIds| && u < st.nupfreq && it < st.ntOuter && t < st.ntp
    ensures At(u, st.ntp, t) < At(st.nupfreq, st.ntp, 0)
    ensures var p := ElementIndex(st, fi.stride, b, f, it, u, t);
            HasAt(fi, p, BlockValue(st, fi, b, f, it, At(u, st.ntp, t)))
  {
    hide At, ValidStream, ValidField, BlockValue, HasAt;
    BlockValueAt(st, fi, b, f, it, u, t);
    AtIsProduct(it, st.ntp, t);
    PositionIsProduct(|st.freqIds|, st.nupfreq, fi.stride, b, f, u, At(it, st.ntp, t));
  }

  // ------------------------------------------------------------------------------------------------
  // One packet

  /** A block that makes the program divide by zero: it has valid samples, all of them zero. */
  predicate Degenerate(s: seq<Sample>) { Count(s) > 0 && AllZero(s) }

  function BlockScale(s: seq<Sample>, root: real -> real): real {
    if Count(s) == 0 then 1.0 else PacketScale(s, root)
  }

  function BlockOffset(s: seq<Sample>, root: real -> real): real {
    if Count(s) == 0 then 0.0 else Offset(PacketMean(s), PacketScale(s, root))
  }

  /** Sample k as a byte. */
  predicate EncodesSample(s: seq<Sample>, root: real -> real, k: nat, d: uint8) {
    && k < |s|
    && if Count(s) == 0 then d == 0
       else PacketScale(s, root) > 0.0 && d == EncodeSample(s[k], PacketMean(s), PacketScale(s, root))
  }

  /** Bytes, scale and offset of one block; `single` rounds to single precision. */
  datatype Block = Block(scale: Float4, offset: Float4, bytes: seq<uint8>)

  predicate EncodesBlock(s: seq<Sample>, root: real -> real, single: real -> Float4, k: Block) {
    && !Degenerate(s)
    && k.scale == single(BlockScale(s, root)) && k.offset == single(BlockOffset(s, root)) && |k.bytes| == |s|
    && forall i :: 0 <= i < |s| ==> EncodesSample(s, root, i, k.bytes[i])
  }

  method EncodeOneBlock(st: Stream, fi: Field, fw: Field, b: nat, f: nat, it: nat, root: real -> real, single: real -> Float4)
    returns (ok: bool, k: Block)
    requires ValidStream(st) && ValidField(st, fi) && ValidField(st, fw) && IsRoot(root)
    requires b < |st.beamIds| && f < |st.freqIds| && it < st.ntOuter
    ensures ok <==> !Degenerate(BlockSamples(st, fi, fw, b, f, it))
    ensures ok ==> EncodesBlock(BlockSamples(st, fi, fw, b, f, it), root, single, k)
  {
    hide Count, AllZero, PacketMean, PacketScale, EncodeSample, Offset, At, ValidStream, ValidField;
    ghost var s := BlockSamples(st, fi, fw, b, f, it);
    var r := EncodeBlock(BlockValues(st, fi, b, f, it), BlockValues(st, fw, b, f, it), st.cutoff, root);
    match r
    case DividesByZero => return false, Block([0, 0, 0, 0], [0, 0, 0, 0], []);
    case AllMasked(bytes) => return true, Block(single(1.0), single(0.0), bytes);
    case Encoded(scale, offset, bytes) => return true, Block(single(scale), single(offset), bytes);
  }

  /** Block (b, f) of packet (it, io) is in its place. */
  predicate BlockInPacket(st: Stream, fi: Field, fw: Field, root: real -> real, single: real -> Float4, it: nat, io: nat,
                          b: nat, f: nat, scales: seq<Float4>, offsets: seq<Float4>, data: seq<uint8>)
    requires ValidStream(st) && ValidField(st, fi) && ValidField(st, fw) && it < st.ntOuter
  {
    var F, i, size := At(io, st.nfp, f), At(b, st.nfp, f), At(st.nupfreq, st.ntp, 0);
    && b < |st.beamIds| && F < |st.freqIds| && i < |scales| && i < |offsets| && At(i, size, 0) + size <= |data|
    && EncodesBlock(BlockSamples(st, fi, fw, b, F, it), root, single,
                    Block(scales[i], offsets[i], data[At(i, size, 0)..At(i, size, 0) + size]))
  }

  /** All blocks as far as (b, f). */
  predicate BlocksInPacket(st: Stream, fi: Field, fw: Field, root: real -> real, single: real -> Float4, it: nat, io: nat,
                           b: nat, f: nat, scales: seq<Float4>, offsets: seq<Float4>, data: seq<uint8>)
    requires ValidStream(st) && ValidField(st, fi) && ValidField(st, fw) && it < st.ntOuter
  {
    var n := At(b, st.nfp, f);
    && |scales| == |offsets| == n && |data| == At(n, At(st.nupfreq, st.ntp, 0), 0)
    && forall b', f' :: 0 <= b' < |st.beamIds| && 0 <= f' < st.nfp && (b' < b || (b' == b && f' < f)) ==>
                          BlockInPacket(st, fi, fw, root, single, it, io, b', f', scales, offsets, data)
  }

  lemma BlockAppended(st: Stream, fi: Field, fw: Field, root: real -> real, single: real -> Float4, it: nat, io: nat,
                      b: nat, f: nat, scales: seq<Float4>, offsets: seq<Float4>, data: seq<uint8>, k: Block)
    requires ValidStream(st) && ValidField(st, fi) && ValidField(st, fw) && it < st.ntOuter && b < |st.beamIds| && f < st.nfp
    requires At(io, st.nfp, f) < |st.freqIds|
    requires BlocksInPacket(st, fi, fw, root, single, it, io, b, f, scales, offsets, data)
    requires EncodesBlock(BlockSamples(st, fi, fw, b, At(io, st.nfp, f), it), root, single, k)
    ensures BlocksInPacket(st, fi, fw, root, single, it, io, b, f + 1, scales + [k.scale], offsets + [k.offset], data + k.bytes)
  {
    hide At, ValidStream, ValidField, EncodesBlock, BlockSamples;
    var size := At(st.nupfreq, st.ntp, 0);
    AtColumn(b, st.nfp, f, 1);
    NextItem(At(b, st.nfp, f), size);
    var scales1, offsets1, data1 := scales + [k.scale], offsets + [k.offset], data + k.bytes;
    BlockSize(st, fi, fw, root, single, b, At(io, st.nfp, f), it, k);
    forall b', f' | 0 <= b' < |st.beamIds| && 0 <= f' < st.nfp && (b' < b || (b' == b && f' < f + 1))
      ensures BlockInPacket(st, fi, fw, root, single, it, io, b', f', scales1, offsets1, data1)
    {
      if b' < b || f' < f {
        assert BlockInPacket(st, fi, fw, root, single, it, io, b', f', scales, offsets, data);
        var i := At(b', st.nfp, f');
        assert data1[At(i, size, 0)..At(i, size, 0) + size] == data[At(i, size, 0)..At(i, size, 0) + size];
      } else {
        assert data1[|data|..|data| + size] == k.bytes;
      }
    }
  }

  lemma BlockSize(st: Stream, fi: Field, fw: Field, root: real -> real, single: real -> Float4, b: nat, f: nat, it: nat, k: Block)
    requires ValidStream(st) && ValidField(st, fi) && ValidField(st, fw)
    requires b < |st.beamIds| && f < |st.freqIds| && it < st.ntOuter
    requires EncodesBlock(BlockSamples(st, fi, fw, b, f, it), root, single, k)
    ensures |k.bytes| == At(st.nupfreq, st.ntp, 0)
  {
  }

  lemma BeamFinished(st: Stream, fi: Field, fw: Field, root: real -> real, single: real -> Float4, it: nat, io: nat,
                     b: nat, scales: seq<Float4>, offsets: seq<Float4>, data: seq<uint8>)
    requires ValidStream(st) && ValidField(st, fi) && ValidField(st, fw) && it < st.ntOuter
    requires BlocksInPacket(st, fi, fw, root, single, it, io, b, st.nfp, scales, offsets, data)
    ensures BlocksInPacket(st, fi, fw, root, single, it, io, b + 1, 0, scales, offsets, data)
  {
    hide At, ValidStream, ValidField, BlockInPacket;
    NextItem(b, st.nfp);
    AtColumn(b, st.nfp, 0, st.nfp);
  }

  /** The packet of window `it` and frequency group `io`. */
  predicate EncodesPacket(st: Stream, fi: Field, fw: Field, root: real -> real, single: real -> Float4, fpga: nat,
                          it: nat, io: nat, p: Packet)
    requires ValidStream(st) && ValidField(st, fi) && ValidField(st, fw)
  {
    && it < st.ntOuter && io < st.nfOuter
    && Consistent(p) && Sendable(p)
    && p.h == HeaderOf(st, PacketFpga(st, fpga, it)) && p.beamIds == st.beamIds
    && At(io, st.nfp, 0) + st.nfp <= |st.freqIds| && p.freqIds == st.freqIds[At(io, st.nfp, 0)..At(io, st.nfp, 0) + st.nfp]
    && BlocksInPacket(st, fi, fw, root, single, it, io, |st.beamIds|, 0, p.scales, p.offsets, p.data)
  }

  function PacketFpga(st: Stream, fpga: nat, it: nat): nat {
    fpga + At(it, st.fps * st.ntp, 0)
  }

  /** Encodes one packet; fails where the program would divide by zero. */
  method EncodePacket(st: Stream, fi: Field, fw: Field, root: real -> real, single: real -> Float4, fpga: nat, it: nat, io: nat)
    returns (ok: bool, p: Packet)
    requires ValidStream(st) && ValidField(st, fi) && ValidField(st, fw) && IsRoot(root)
    requires it < st.ntOuter && io < st.nfOuter
    requires PacketFpga(st, fpga, it) < Range(8) && fpga % (st.fps * st.ntp) == 0
    ensures ok ==> EncodesPacket(st, fi, fw, root, single, fpga, it, io, p)
    ensures !ok ==> exists b, f :: 0 <= b < |st.beamIds| && 0 <= f < |st.freqIds| && Degenerate(BlockSamples(st, fi, fw, b, f, it))
  {
    hide At, Degenerate, EncodesBlock, BlocksInPacket, HeaderSize, DataBytes, PowerOfTwo, BlockSamples, ValidField, Consistent, Sendable;
    var scales: seq<Float4>, offsets: seq<Float4>, data: seq<uint8> := [], [], [];
    NoBlocks(st, fi, fw, root, single, it, io);
    for b := 0 to |st.beamIds|
      invariant BlocksInPacket(st, fi, fw, root, single, it, io, b, 0, scales, offsets, data)
    {
      for f := 0 to st.nfp
        invariant BlocksInPacket(st, fi, fw, root, single, it, io, b, f, scales, offsets, data)
      {
        AtBound(io, st.nfOuter, st.nfp, f);
        var good, k := EncodeOneBlock(st, fi, fw, b, At(io, st.nfp, f), it, root, single);
        if !good {
          return false, Packet(HeaderOf(st, 0), [], [], [], [], []);
        }
        BlockAppended(st, fi, fw, root, single, it, io, b, f, scales, offsets, data, k);
        scales, offsets, data := scales + [k.scale], offsets + [k.offset], data + k.bytes;
      }
      BeamFinished(st, fi, fw, root, single, it, io, b, scales, offsets, data);
    }
    var from := At(io, st.nfp, 0);
    GroupInside(st, io);
    p := Packet(HeaderOf(st, PacketFpga(st, fpga, it)), st.beamIds, st.freqIds[from..from + st.nfp], scales, offsets, data);
    ok := true;
    PacketIsSendable(st, fi, fw, root, single, fpga, it, io, p);
  }

  lemma GroupInside(st: Stream, io: nat)
    requires ValidStream(st) && io < st.nfOuter
    ensures At(io, st.nfp, 0) + st.nfp <= |st.freqIds|
  {
    ItemInside(st.nfOuter, st.nfp, io);
  }

  lemma NoBlocks(st: Stream, fi: Field, fw: Field, root: real -> real, single: real -> Float4, it: nat, io: nat)
    requires ValidStream(st) && ValidField(st, fi) && ValidField(st, fw) && it < st.ntOuter
    ensures BlocksInPacket(st, fi, fw, root, single, it, io, 0, 0, [], [], [])
  {
    AtNone(st.nfp);
    AtNone(At(st.nupfreq, st.ntp, 0));
  }

  /** The constructor's checks make every packet acceptable. */
  lemma PacketIsSendable(st: Stream, fi: Field, fw: Field, root: real -> real, single: real -> Float4, fpga: nat,
                         it: nat, io: nat, p: Packet)
    requires ValidStream(st) && ValidField(st, fi) && ValidField(st, fw) && it < st.ntOuter && io < st.nfOuter
    requires PacketFpga(st, fpga, it) < Range(8) && fpga % (st.fps * st.ntp) == 0
    requires p.h == HeaderOf(st, PacketFpga(st, fpga, it)) && p.beamIds == st.beamIds
    requires At(io, st.nfp, 0) + st.nfp <= |st.freqIds| && p.freqIds == st.freqIds[At(io, st.nfp, 0)..At(io, st.nfp, 0) + st.nfp]
    requires BlocksInPacket(st, fi, fw, root, single, it, io, |st.beamIds|, 0, p.scales, p.offsets, p.data)
    ensures Consistent(p) && Sendable(p)
  {
    hide At, PowerOfTwo, BlockInPacket;
    PositivePower(st.ntp);
    NestedStart(At(|st.beamIds|, st.nfp, 0), st.nupfreq, st.ntp);
    StepDivides(st, fpga, it);
    LargeRange();
    OneInRange();
    assert HeaderSize(p.h) + DataBytes(p.h) == HeaderSize(HeaderOf(st, 0)) + DataBytes(HeaderOf(st, 0));
  }

  lemma OneInRange()
    ensures Range(4) > 1
  {
    FourBytes();
  }

  lemma StepDivides(st: Stream, fpga: nat, it: nat)
    requires st.fps * st.ntp > 0 && fpga % (st.fps * st.ntp) == 0
    ensures PacketFpga(st, fpga, it) % (st.fps * st.ntp) == 0
    ensures PacketFpga(st, fpga, it) == fpga + it * (st.fps * st.ntp)
  {
    var step := st.fps * st.ntp;
    AtIsProduct(it, step, 0);
    MultipleAdded(fpga, it, step);
  }

  lemma MultipleAdded(x: nat, n: nat, step: nat)
    requires step > 0 && x % step == 0
    ensures (x + n * step) % step == 0
  {
    var q := x / step;
    assert x == q * step;
    assert x + n * step == (q + n) * step;
    MultipleIsZero(step, q + n);
  }

  // ------------------------------------------------------------------------------------------------
  // A chunk

  datatype ChunkOutcome = BadFpgaCount | DividedByZero | Packets(ps: seq<Packet>)

  /** Packet number it*nfOuter+io is that of window `it` and group `io`. */
  predicate EncodesChunk(st: Stream, fi: Field, fw: Field, root: real -> real, single: real -> Float4, fpga: nat, ps: seq<Packet>)
    requires ValidStream(st) && ValidField(st, fi) && ValidField(st, fw)
  {
    && |ps| == At(st.ntOuter, st.nfOuter, 0)
    && forall n :: 0 <= n < |ps| ==> NthPacket(st, fi, fw, root, single, fpga, ps, n)
  }

  predicate NthPacket(st: Stream, fi: Field, fw: Field, root: real -> real, single: real -> Float4, fpga: nat, ps: seq<Packet>, n: nat)
    requires ValidStream(st) && ValidField(st, fi) && ValidField(st, fw)
  {
    && st.nfOuter > 0 && n < |ps|
    && EncodesPacket(st, fi, fw, root, single, fpga, RowOf(n, st.nfOuter), ColumnOf(n, st.nfOuter), ps[n])
  }

  method EncodeChunk(st: Stream, fi: Field, fw: Field, root: real -> real, single: real -> Float4, fpga: nat)
    returns (o: ChunkOutcome)
    requires ValidStream(st) && ValidField(st, fi) && ValidField(st, fw) && IsRoot(root)
    requires PacketFpga(st, fpga, st.ntOuter) < Range(8)
    ensures o.BadFpgaCount? <==> fpga % (st.fps * st.ntp) != 0
    ensures o.Packets? ==> EncodesChunk(st, fi, fw, root, single, fpga, o.ps)
    ensures o.DividedByZero? ==>
              exists b, f, it :: 0 <= b < |st.beamIds| && 0 <= f < |st.freqIds| && 0 <= it < st.ntOuter
                                 && Degenerate(BlockSamples(st, fi, fw, b, f, it))
  {
    hide At, EncodesPacket, ValidField, HeaderSize, DataBytes, PowerOfTwo, Degenerate, BlockSamples, RowOf, ColumnOf;
    PositivePower(st.ntp);
    if fpga % (st.fps * st.ntp) != 0 { return BadFpgaCount; }
    var ps := [];
    AtNone(st.nfOuter);
    for it := 0 to st.ntOuter
      invariant |ps| == At(it, st.nfOuter, 0)
      invariant forall n :: 0 <= n < |ps| ==> NthPacket(st, fi, fw, root, single, fpga, ps, n)
    {
      LaterFpga(st, fpga, it);
      for io := 0 to st.nfOuter
        invariant |ps| == At(it, st.nfOuter, io)
        invariant forall n :: 0 <= n < |ps| ==> NthPacket(st, fi, fw, root, single, fpga, ps, n)
      {
        var ok, p := EncodePacket(st, fi, fw, root, single, fpga, it, io);
        if !ok { return DividedByZero; }
        ghost var before := ps;
        ps := ps + [p];
        forall n | 0 <= n < |ps| ensures NthPacket(st, fi, fw, root, single, fpga, ps, n) {
          if n < |before| {
            assert NthPacket(st, fi, fw, root, single, fpga, before, n);
          } else {
            RowOfAt(it, st.nfOuter, io);
          }
        }
        AtColumn(it, st.nfOuter, io, 1);
      }
      NextRow(it, st.nfOuter);
    }
    o := Packets(ps);
  }

  lemma NextRow(row: nat, width: nat)
    ensures At(row, width, width) == At(row + 1, width, 0)
  {
    NextItem(row, width);
    AtColumn(row, width, 0, width);
  }

  lemma LaterFpga(st: Stream, fpga: nat, it: nat)
    requires it < st.ntOuter && PacketFpga(st, fpga, st.ntOuter) < Range(8)
    ensures PacketFpga(st, fpga, it) < Range(8)
  {
    ItemInside(st.ntOuter, st.fps * st.ntp, it);
  }

  // ------------------------------------------------------------------------------------------------
  // What leaves the sender

  /** On the wire, and split by beam: the receiver sees exactly that beam's part of what was sent. */
  lemma WireDelivers(st: Stream, fi: Field, fw: Field, root: real -> real, single: real -> Float4, fpga: nat,
                     it: nat, io: nat, p: Packet, ib: nat)
    requires ValidStream(st) && ValidField(st, fi) && ValidField(st, fw) && ib < |st.beamIds|
    requires EncodesPacket(st, fi, fw, root, single, fpga, it, io, p)
    ensures Accepts(Serialize(p))
    ensures var v := ViewOf(ReadHeader(Serialize(p)));
            Fits(Serialize(p), BeamView(v, ib)) && ReadPacket(Serialize(p), BeamView(v, ib)) == BeamPart(p, ib)
  {
    hide Accepts, ReadPacket, BeamView, BeamPart, Serialize, ReadHeader, Fits, At, ValidStream, ValidField;
    SendableIsAccepted(p);
    BeamViewReads(Serialize(p), ViewOf(p.h), ib);
  }

  /** Every sample of a chunk is in exactly one of its packets. */
  lemma EverySampleIsSentOnce(st: Stream, fi: Field, fw: Field, root: real -> real, single: real -> Float4, fpga: nat,
                              ps: seq<Packet>, F: nat, T: nat) returns (n: nat)
    requires ValidStream(st) && ValidField(st, fi) && ValidField(st, fw)
    requires EncodesChunk(st, fi, fw, root, single, fpga, ps) && F < |st.freqIds| && T < At(st.ntOuter, st.ntp, 0)
    ensures st.nfOuter > 0 && st.ntp > 0 && n < |ps| && Holds(st, n, F, T)
    ensures forall m :: 0 <= m < |ps| && Holds(st, m, F, T) ==> m == n
  {
    hide At, RowOf, ColumnOf, PowerOfTwo, HeaderSize, DataBytes, ValidField, EncodesPacket;
    PositivePower(st.ntp);
    GroupsExist(st);
    var it, io := RowOf(T, st.ntp), RowOf(F, st.nfp);
    AtOfRow(T, st.ntOuter, st.ntp);
    AtOfRow(F, st.nfOuter, st.nfp);
    n := At(it, st.nfOuter, io);
    AtBound(it, st.ntOuter, st.nfOuter, io);
    RowOfAt(it, st.nfOuter, io);
    forall m | 0 <= m < |ps| && Holds(st, m, F, T) ensures m == n {
      AtOfRow(m, st.ntOuter, st.nfOuter);
    }
  }

  lemma GroupsExist(st: Stream)
    requires ValidStream(st) && |st.freqIds| > 0
    ensures st.nfOuter > 0
  {
    AtNone(st.nfp);
  }

  /** Sample T of frequency F is in window `it` and group `io` of packet n. */
  predicate Holds(st: Stream, n: nat, F: nat, T: nat) {
    && st.nfOuter > 0 && st.ntp > 0 && st.nfp > 0
    && RowOf(n, st.nfOuter) == RowOf(T, st.ntp) && ColumnOf(n, st.nfOuter) == RowOf(F, st.nfp)
  }
}
