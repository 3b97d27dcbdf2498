/**
  From the packets of a sender's chunk to the chunks of the receiver: whatever order the packets arrive in, every sample
  ends up in the row of its frequency with the scale and the offset of its block, nothing else changes, and what the
  receiver decodes is close to what was sent.
*/
module ChunkDelivery {
  import opened BeamSplit
  import opened BitMatrix
  import opened ChunkAssembly
  import opened ChunkEncode
  import opened EncodeBound
  import FastDecode
  import opened Options
  import opened PacketEncode
  import opened PacketFormat
  import opened Products

  /** A chunk of one beam at a receiver whose packets have the sender's shape.  Where it begins is another matter. */
  predicate Receives(st: Stream, g: Geometry, fpga: nat, ib: nat) {
    && ValidGeometry(g) && ib < |st.beamIds| && g.beamId == st.beamIds[ib]
    && g.nupfreq == st.nupfreq && g.ntp == st.ntp && g.fps == st.fps
    && fpga % (st.fps * st.ntp) == 0
  }

  /** First sample of window `it`, counted from the beginning of the receiver's chunk. */
  function First(st: Stream, g: Geometry, fpga: nat, it: nat): int
    requires st.fps > 0
  {
    fpga / st.fps + At(it, st.ntp, 0) - g.isample
  }

  /** The window is in the receiver's chunk.  A sender's chunk may be spread over several of them. */
  predicate Lands(st: Stream, g: Geometry, fpga: nat, it: nat)
    requires st.fps > 0
  {
    0 <= First(st, g, fpga, it) && First(st, g, fpga, it) + st.ntp <= NT_PER_CHUNK
  }

  // ------------------------------------------------------------------------------------------------
  // Windows and chunks

  lemma Regroup(it: nat, fps: nat, ntp: nat)
    ensures it * (fps * ntp) == fps * (it * ntp)
  {
  }

  /** The first sample of the sender's chunk is a multiple of the length of a packet. */
  lemma FpgaIsAligned(fpga: nat, fps: nat, ntp: nat) returns (q: nat)
    requires fps > 0 && ntp > 0 && fps * ntp > 0 && fpga % (fps * ntp) == 0
    ensures fpga / fps == ntp * q
  {
    q := fpga / (fps * ntp);
    assert fpga == (fps * ntp) * q;
    Regroup(q, fps, ntp);
    QuotientIs(fpga, fps, q * ntp, 0);
  }

  lemma Shapes(st: Stream, g: Geometry, fpga: nat, ib: nat) returns (q: nat, r: nat)
    requires ValidStream(st) && Receives(st, g, fpga, ib)
    ensures st.fps > 0 && st.ntp > 0 && g.ntp == st.ntp
    ensures fpga / st.fps == st.ntp * q && g.isample == st.ntp * r
  {
    hide At, HeaderSize, DataBytes;
    PositivePower(st.ntp);
    hide PowerOfTwo;
    ProductIsPositive(st.fps, st.ntp);
    q := FpgaIsAligned(fpga, st.fps, st.ntp);
    r := g.isample / st.ntp;
  }

  lemma Multiples(n: nat, q: nat, it: nat)
    ensures n * q + it * n == n * (q + it)
  {
    Distributes(n, q, it);
  }

  /** So is the first sample of every window. */
  lemma FirstIsAligned(st: Stream, g: Geometry, fpga: nat, ib: nat, it: nat) returns (c: nat)
    requires ValidStream(st) && Receives(st, g, fpga, ib) && Lands(st, g, fpga, it)
    ensures First(st, g, fpga, it) == st.ntp * c
  {
    var q, r := Shapes(st, g, fpga, ib);
    hide ValidStream, Receives, At;
    AtIsProduct(it, st.ntp, 0);
    Multiples(st.ntp, q, it);
    c := Difference(st.ntp, q + it, r);
  }

  lemma Difference(n: nat, a: nat, b: nat) returns (c: nat)
    requires n > 0 && n * a >= n * b
    ensures n * a - n * b == n * c
  {
    if a < b { Distributes(n, a, 1); Grows(n, a + 1, b); }
    c := a - b;
    Distributes(n, c, b);
  }

  /** Of the receiver's chunks, a window is in the one its first sample is in, and in no other. */
  lemma LandsInItsChunk(st: Stream, g: Geometry, fpga: nat, ib: nat, it: nat, chunk: nat)
    requires ValidStream(st) && Receives(st, g, fpga, ib) && g.isample == NT_PER_CHUNK * chunk
    ensures st.fps > 0
    ensures Lands(st, g, fpga, it) <==> (fpga / st.fps + At(it, st.ntp, 0)) / NT_PER_CHUNK == chunk
  {
    var q, r := Shapes(st, g, fpga, ib);
    CoarsePositive(g);
    hide ValidStream, Receives, At;
    AtIsProduct(it, st.ntp, 0);
    Multiples(st.ntp, q, it);
    WindowFits(st.ntp * (q + it), st.ntp, q + it, NT_PER_CHUNK / st.ntp, chunk);
  }

  /** A multiple of ntp is in chunk `chunk` exactly if the ntp samples from there on are. */
  lemma WindowFits(x: nat, ntp: nat, k: nat, m: nat, chunk: nat)
    requires ntp > 0 && x == ntp * k && NT_PER_CHUNK == ntp * m
    ensures x / NT_PER_CHUNK == chunk <==> NT_PER_CHUNK * chunk <= x && x + ntp <= NT_PER_CHUNK * chunk + NT_PER_CHUNK
  {
    if x / NT_PER_CHUNK == chunk {
      assert NT_PER_CHUNK * chunk == ntp * (m * chunk) by { ThreeFactors(ntp, m, chunk); }
      var next := m * chunk + m;
      Distributes(ntp, m * chunk, m);
      if k >= next { Grows(ntp, next, k); }
      Grows(ntp, k + 1, next);
      Distributes(ntp, k, 1);
    }
  }

  // ------------------------------------------------------------------------------------------------
  // One beam's part of one packet

  /** Its place is that of its window, and the receiver's chunk takes it exactly if the window is in the chunk. */
  lemma PartBelongs(st: Stream, fi: Field, fw: Field, root: real -> real, single: real -> Float4, fpga: nat,
                    it: nat, io: nat, p: Packet, ib: nat, g: Geometry)
    requires ValidStream(st) && ValidField(st, fi) && ValidField(st, fw) && Receives(st, g, fpga, ib)
    requires EncodesPacket(st, fi, fw, root, single, fpga, it, io, p)
    ensures Start(g, BeamPart(p, ib)) == First(st, g, fpga, it)
    ensures Belongs(g, BeamPart(p, ib)) <==> Lands(st, g, fpga, it)
  {
    hide At, PowerOfTwo, HeaderSize, DataBytes, BeamBytes, BlocksInPacket, ValidField;
    PositivePower(st.ntp);
    ProductIsPositive(st.fps, st.ntp);
    StepDivides(st, fpga, it);
    AtIsProduct(it, st.ntp, 0);
    Regroup(it, st.fps, st.ntp);
    QuotientOfSum(fpga, st.fps, it * st.ntp);
    PartHasOneBeam(p, ib);
  }

  /** Where sample (F, u, t) of window `it` goes, and the scale and the offset of its block. */
  function Target(st: Stream, g: Geometry, fpga: nat, it: nat, F: nat, u: nat, t: nat): nat
    requires F < |st.freqIds| && st.fps > 0 && Lands(st, g, fpga, it)
  {
    At(At(st.freqIds[F], st.nupfreq, u), NT_PER_CHUNK, First(st, g, fpga, it) + t)
  }

  /** The packet time of the window. */
  function Coarse(st: Stream, g: Geometry, fpga: nat, it: nat): nat
    requires st.fps > 0 && st.ntp > 0 && Lands(st, g, fpga, it)
  {
    QuotientIsNat(First(st, g, fpga, it), st.ntp);
    First(st, g, fpga, it) / st.ntp
  }

  lemma QuotientIsNat(x: int, n: nat)
    requires x >= 0 && n > 0
    ensures x / n >= 0
  {
  }

  function FloatTarget(st: Stream, g: Geometry, fpga: nat, it: nat, F: nat): nat
    requires F < |st.freqIds| && st.fps > 0 && st.ntp > 0 && Lands(st, g, fpga, it)
  {
    At(st.freqIds[F], NT_PER_CHUNK / st.ntp, Coarse(st, g, fpga, it))
  }

  /** Everything needed about the place of a part. */
  lemma PartPlace(st: Stream, fi: Field, fw: Field, root: real -> real, single: real -> Float4, fpga: nat,
                  it: nat, io: nat, p: Packet, ib: nat, g: Geometry)
    requires ValidStream(st) && ValidField(st, fi) && ValidField(st, fw) && Receives(st, g, fpga, ib)
    requires EncodesPacket(st, fi, fw, root, single, fpga, it, io, p)
    ensures ValidGeometry(g) && g.nupfreq == st.nupfreq && g.ntp == st.ntp && st.fps > 0 && ib < |st.beamIds|
    ensures io < st.nfOuter && it < st.ntOuter && |st.freqIds| == At(st.nfOuter, st.nfp, 0)
    ensures Consistent(p) && ib < p.h.nbeams
    ensures Start(g, BeamPart(p, ib)) == First(st, g, fpga, it)
  {
    hide At, HeaderSize, DataBytes, PowerOfTwo, ValidField, Start, Belongs;
    PartBelongs(st, fi, fw, root, single, fpga, it, io, p, ib, g);
  }

  lemma PartFields(st: Stream, fi: Field, fw: Field, root: real -> real, single: real -> Float4, fpga: nat,
                   it: nat, io: nat, p: Packet, ib: nat)
    requires ValidStream(st) && ValidField(st, fi) && ValidField(st, fw) && ib < |st.beamIds|
    requires EncodesPacket(st, fi, fw, root, single, fpga, it, io, p)
    ensures var ids := BeamPart(p, ib).freqIds;
            && |ids| == st.nfp && (forall f :: 0 <= f < |ids| ==> At(io, st.nfp, 0) + f < |st.freqIds| && ids[f] == st.freqIds[At(io, st.nfp, 0) + f])
            && forall i, j :: 0 <= i < j < |ids| ==> ids[i] != ids[j]
  {
    hide At, PowerOfTwo, HeaderSize, DataBytes, BeamBytes, BlocksInPacket, ValidField;
  }

  lemma OnlyChannel(ids: seq<nat>, f: nat)
    requires f < |ids| && forall i, j :: 0 <= i < j < |ids| ==> ids[i] != ids[j]
    ensures LastChannel(ids, ids[f], |ids|) == f
  {
    hide LastChannel;
    var l := LastChannel(ids, ids[f], |ids|);
  }

  // ------------------------------------------------------------------------------------------------
  // What a part writes

  /** Byte (f, u, t) of a packet with distinct frequencies goes to the row of its frequency. */
  lemma PatchWrites(g: Geometry, p: Packet, f: nat, u: nat, t: nat)
    requires ValidGeometry(g) && 0 <= Start(g, p) && Start(g, p) + g.ntp <= NT_PER_CHUNK
    requires f < |p.freqIds| && u < g.nupfreq && t < g.ntp && At(At(f, g.nupfreq, u), g.ntp, t) < |p.data|
    requires forall i, j :: 0 <= i < j < |p.freqIds| ==> p.freqIds[i] != p.freqIds[j]
    ensures DataPatch(g)(p, At(At(p.freqIds[f], g.nupfreq, u), NT_PER_CHUNK, Start(g, p) + t))
            == Some(p.data[At(At(f, g.nupfreq, u), g.ntp, t)])
  {
    hide At, RowOf, ColumnOf, Start;
    RowOfAt(At(p.freqIds[f], g.nupfreq, u), NT_PER_CHUNK, Start(g, p) + t);
    RowOfAt(p.freqIds[f], g.nupfreq, u);
    OnlyChannel(p.freqIds, f);
  }

  /** Its scale and its offset go to the packet time of the window. */
  lemma FloatPatchWrites(g: Geometry, p: Packet, f: nat)
    requires ValidGeometry(g) && 0 <= Start(g, p) && Start(g, p) + g.ntp <= NT_PER_CHUNK
    requires f < |p.freqIds| && f < |p.scales| && f < |p.offsets|
    requires forall i, j :: 0 <= i < j < |p.freqIds| ==> p.freqIds[i] != p.freqIds[j]
    ensures ScalePatch(g)(p, FloatPosition(g, p, p.freqIds[f])) == Some(p.scales[f])
    ensures OffsetPatch(g)(p, FloatPosition(g, p, p.freqIds[f])) == Some(p.offsets[f])
  {
    hide At, RowOf, ColumnOf, Start;
    CoarsePositive(g);
    QuotientBelow(Start(g, p), g.ntp, NT_PER_CHUNK / g.ntp);
    RowOfAt(p.freqIds[f], NT_PER_CHUNK / g.ntp, Start(g, p) / g.ntp);
    OnlyChannel(p.freqIds, f);
  }

  lemma PartByte(st: Stream, fi: Field, fw: Field, root: real -> real, single: real -> Float4, fpga: nat,
                 it: nat, io: nat, p: Packet, ib: nat, f: nat, u: nat, t: nat)
    requires ValidStream(st) && ValidField(st, fi) && ValidField(st, fw) && ib < |st.beamIds|
    requires EncodesPacket(st, fi, fw, root, single, fpga, it, io, p)
    requires f < st.nfp && u < st.nupfreq && t < st.ntp && At(io, st.nfp, f) < |st.freqIds|
    ensures At(At(f, st.nupfreq, u), st.ntp, t) < |BeamPart(p, ib).data|
    ensures EncodesSample(BlockSamples(st, fi, fw, ib, At(io, st.nfp, f), it), root, At(u, st.ntp, t),
                          BeamPart(p, ib).data[At(At(f, st.nupfreq, u), st.ntp, t)])
  {
    hide At, PowerOfTwo, HeaderSize, DataBytes, BeamBytes, ValidField, BeamPart, EncodesSample, Degenerate;
    BeamCell(p, ib, f, u, t);
    assert BlockInPacket(st, fi, fw, root, single, it, io, ib, f, p.scales, p.offsets, p.data);
    var i, size, k := At(ib, st.nfp, f), At(st.nupfreq, st.ntp, 0), At(u, st.ntp, t);
    AtNested(i, st.nupfreq, u, st.ntp, t);
    AtColumn(i, size, 0, k);
    AtBound(u, st.nupfreq, st.ntp, t);
    var bytes := p.data[At(i, size, 0)..At(i, size, 0) + size];
    assert bytes[k] == p.data[At(i, size, 0) + k];
    assert EncodesSample(BlockSamples(st, fi, fw, ib, At(io, st.nfp, f), it), root, k, bytes[k]);
  }

  lemma BeamFloats(p: Packet, ib: nat, f: nat)
    requires Consistent(p) && ib < p.h.nbeams && f < p.h.nfreq
    ensures var i, part := At(ib, p.h.nfreq, 0) + f, BeamPart(p, ib);
            && f < |part.scales| && f < |part.offsets| && i < |p.scales| && i < |p.offsets|
            && part.scales[f] == p.scales[i] && part.offsets[f] == p.offsets[i]
  {
    hide At, BeamBytes, DataBytes;
    BeamInside(p.h, ib);
  }

  lemma PartFloats(st: Stream, fi: Field, fw: Field, root: real -> real, single: real -> Float4, fpga: nat,
                   it: nat, io: nat, p: Packet, ib: nat, f: nat)
    requires ValidStream(st) && ValidField(st, fi) && ValidField(st, fw) && ib < |st.beamIds|
    requires EncodesPacket(st, fi, fw, root, single, fpga, it, io, p)
    requires f < st.nfp && At(io, st.nfp, f) < |st.freqIds|
    ensures var part, s := BeamPart(p, ib), BlockSamples(st, fi, fw, ib, At(io, st.nfp, f), it);
            && !Degenerate(s) && f < |part.scales| && f < |part.offsets|
            && part.scales[f] == single(BlockScale(s, root)) && part.offsets[f] == single(BlockOffset(s, root))
  {
    hide At, PowerOfTwo, HeaderSize, DataBytes, BeamBytes, ValidField, EncodesSample, Degenerate, BlockSamples, BlockScale,
         BlockOffset, Sendable, Count, AllZero;
    assert BlockInPacket(st, fi, fw, root, single, it, io, ib, f, p.scales, p.offsets, p.data);
    hide BlocksInPacket;
    AtColumn(ib, st.nfp, 0, f);
    BeamFloats(p, ib, f);
  }

  // ------------------------------------------------------------------------------------------------
  // No two packets write the same place

  /** Window and frequency group of packet n. */
  function Window(st: Stream, n: nat): nat
    requires st.nfOuter > 0
  {
    RowOf(n, st.nfOuter)
  }

  function Group(st: Stream, n: nat): nat
    requires st.nfOuter > 0
  {
    ColumnOf(n, st.nfOuter)
  }

  /** Frequency `id` is in the group. */
  predicate InGroup(st: Stream, io: nat, id: nat) {
    exists f :: 0 <= f < st.nfp && FrequencyIs(st, io, f, id)
  }

  predicate FrequencyIs(st: Stream, io: nat, f: nat, id: nat) {
    At(io, st.nfp, f) < |st.freqIds| && st.freqIds[At(io, st.nfp, f)] == id
  }

  /** Byte i of the receiver's chunk is a sample of packet n. */
  predicate CoversByte(st: Stream, g: Geometry, fpga: nat, n: nat, i: nat) {
    && st.nfOuter > 0 && st.fps > 0 && g.nupfreq > 0
    && First(st, g, fpga, Window(st, n)) <= ColumnOf(i, NT_PER_CHUNK) < First(st, g, fpga, Window(st, n)) + st.ntp
    && InGroup(st, Group(st, n), RowOf(RowOf(i, NT_PER_CHUNK), g.nupfreq))
  }

  /** Scale or offset number i is that of a block of packet n. */
  predicate CoversFloat(st: Stream, g: Geometry, fpga: nat, n: nat, i: nat) {
    && st.nfOuter > 0 && st.fps > 0 && 0 < st.ntp <= NT_PER_CHUNK
    && First(st, g, fpga, Window(st, n)) >= 0
    && ColumnOf(i, NT_PER_CHUNK / st.ntp) == First(st, g, fpga, Window(st, n)) / st.ntp
    && InGroup(st, Group(st, n), RowOf(i, NT_PER_CHUNK / st.ntp))
  }

  lemma PatchCovers(st: Stream, fi: Field, fw: Field, root: real -> real, single: real -> Float4, fpga: nat,
                    ps: seq<Packet>, ib: nat, g: Geometry, n: nat, i: nat)
    requires ValidStream(st) && ValidField(st, fi) && ValidField(st, fw) && Receives(st, g, fpga, ib)
    requires NthPacket(st, fi, fw, root, single, fpga, ps, n) && Consistent(ps[n]) && ib < ps[n].h.nbeams
    ensures DataPatch(g)(BeamPart(ps[n], ib), i).Some? ==> CoversByte(st, g, fpga, n, i)
    ensures ScalePatch(g)(BeamPart(ps[n], ib), i).Some? ==> CoversFloat(st, g, fpga, n, i)
    ensures OffsetPatch(g)(BeamPart(ps[n], ib), i).Some? ==> CoversFloat(st, g, fpga, n, i)
  {
    hide At, ValidStream, ValidField, EncodesPacket, Receives, BeamPart, Start, RowOf, ColumnOf, Consistent, First, InGroup, LastChannel;
    var it, io := Window(st, n), Group(st, n);
    PartPlace(st, fi, fw, root, single, fpga, it, io, ps[n], ib, g);
    CoarsePositive(g);
    if DataPatch(g)(BeamPart(ps[n], ib), i).Some? {
      ChannelInGroup(st, fi, fw, root, single, fpga, it, io, ps[n], ib, RowOf(RowOf(i, NT_PER_CHUNK), g.nupfreq));
    }
    if ScalePatch(g)(BeamPart(ps[n], ib), i).Some? || OffsetPatch(g)(BeamPart(ps[n], ib), i).Some? {
      ChannelInGroup(st, fi, fw, root, single, fpga, it, io, ps[n], ib, RowOf(i, NT_PER_CHUNK / g.ntp));
    }
  }

  lemma ChannelInGroup(st: Stream, fi: Field, fw: Field, root: real -> real, single: real -> Float4, fpga: nat,
                       it: nat, io: nat, p: Packet, ib: nat, id: nat)
    requires ValidStream(st) && ValidField(st, fi) && ValidField(st, fw) && ib < |st.beamIds|
    requires EncodesPacket(st, fi, fw, root, single, fpga, it, io, p) && Consistent(p) && ib < p.h.nbeams
    ensures var ids := BeamPart(p, ib).freqIds; LastChannel(ids, id, |ids|) >= 0 ==> InGroup(st, io, id)
  {
    hide At, ValidStream, ValidField, EncodesPacket, BeamPart, LastChannel;
    PartFields(st, fi, fw, root, single, fpga, it, io, p, ib);
    var ids := BeamPart(p, ib).freqIds;
    var f := LastChannel(ids, id, |ids|);
    if f >= 0 {
      AtColumn(io, st.nfp, 0, f);
      assert FrequencyIs(st, io, f, id);
    }
  }

  lemma DistinctChannels(st: Stream, i: nat, j: nat)
    requires ValidStream(st) && i < |st.freqIds| && j < |st.freqIds| && st.freqIds[i] == st.freqIds[j]
    ensures i == j
  {
  }

  lemma OneGroup(st: Stream, io: nat, io': nat, id: nat)
    requires ValidStream(st) && InGroup(st, io, id) && InGroup(st, io', id)
    ensures io == io'
  {
    hide At, ValidStream;
    var f :| 0 <= f < st.nfp && FrequencyIs(st, io, f, id);
    var f' :| 0 <= f' < st.nfp && FrequencyIs(st, io', f', id);
    DistinctChannels(st, At(io, st.nfp, f), At(io', st.nfp, f'));
    AtInjective(io, f, io', f', st.nfp);
  }

  lemma OneWindow(st: Stream, g: Geometry, fpga: nat, it: nat, it': nat, x: nat)
    requires st.fps > 0 && st.ntp > 0
    requires First(st, g, fpga, it) <= x < First(st, g, fpga, it) + st.ntp
    requires First(st, g, fpga, it') <= x < First(st, g, fpga, it') + st.ntp
    ensures it == it'
  {
    hide At;
    var t, t' := x - First(st, g, fpga, it), x - First(st, g, fpga, it');
    AtColumn(it, st.ntp, 0, t);
    AtColumn(it', st.ntp, 0, t');
    AtInjective(it, t, it', t', st.ntp);
  }

  lemma OneCoarseWindow(st: Stream, g: Geometry, fpga: nat, it: nat, it': nat)
    requires st.fps > 0 && st.ntp > 0 && it <= it' && First(st, g, fpga, it) >= 0 && First(st, g, fpga, it') >= 0
    requires First(st, g, fpga, it) / st.ntp == First(st, g, fpga, it') / st.ntp
    ensures it == it'
  {
    hide At;
    AtIsProduct(it, st.ntp, 0);
    AtIsProduct(it', st.ntp, 0);
    var d := it' - it;
    assert it' * st.ntp == it * st.ntp + st.ntp * d;
    QuotientOfSum(First(st, g, fpga, it), st.ntp, d);
  }

  lemma SamePacket(st: Stream, g: Geometry, fpga: nat, ib: nat, m: nat, n: nat, i: nat)
    requires ValidStream(st) && Receives(st, g, fpga, ib)
    requires (CoversByte(st, g, fpga, m, i) && CoversByte(st, g, fpga, n, i))
             || (CoversFloat(st, g, fpga, m, i) && CoversFloat(st, g, fpga, n, i))
    ensures m == n
  {
    hide At, ValidStream, InGroup, First, RowOf, ColumnOf, Receives;
    var it, it', io, io' := Window(st, m), Window(st, n), Group(st, m), Group(st, n);
    PositiveNtp(st);
    if CoversByte(st, g, fpga, m, i) && CoversByte(st, g, fpga, n, i) {
      OneGroup(st, io, io', RowOf(RowOf(i, NT_PER_CHUNK), g.nupfreq));
      OneWindow(st, g, fpga, it, it', ColumnOf(i, NT_PER_CHUNK));
    } else {
      OneGroup(st, io, io', RowOf(i, NT_PER_CHUNK / st.ntp));
      if it <= it' { OneCoarseWindow(st, g, fpga, it, it'); } else { OneCoarseWindow(st, g, fpga, it', it); }
    }
    SamePosition(m, n, st.nfOuter);
  }

  lemma PositiveNtp(st: Stream)
    requires ValidStream(st)
    ensures st.ntp > 0
  {
    hide At, HeaderSize, DataBytes;
    PositivePower(st.ntp);
  }

  lemma SamePosition(m: nat, n: nat, width: nat)
    requires width > 0 && RowOf(m, width) == RowOf(n, width) && ColumnOf(m, width) == ColumnOf(n, width)
    ensures m == n
  {
    hide At, RowOf, ColumnOf;
    AtOfRow(m, m + n + 1, width) by { EnoughRows(m, m + n + 1, width); }
    AtOfRow(n, m + n + 1, width) by { EnoughRows(n, m + n + 1, width); }
  }

  lemma {:induction false} EnoughRows(m: nat, rows: nat, width: nat)
    requires width > 0 && m < rows
    ensures m < At(rows, width, 0)
  {
    AtIsProduct(rows, width, 0);
    Grows(rows, 1, width);
  }

  // ------------------------------------------------------------------------------------------------
  // All parts that reach one chunk

  /** The parts that were added to one chunk of the receiver, in the order in which they were. */
  predicate PartsOf(st: Stream, g: Geometry, fpga: nat, ps: seq<Packet>, ib: nat, order: seq<nat>, parts: seq<Packet>) {
    && |parts| == |order|
    && forall k :: 0 <= k < |order| ==> PartIs(st, g, fpga, ps, ib, order[k], parts[k])
  }

  predicate PartIs(st: Stream, g: Geometry, fpga: nat, ps: seq<Packet>, ib: nat, n: nat, part: Packet) {
    && n < |ps| && Consistent(ps[n]) && ib < ps[n].h.nbeams && part == BeamPart(ps[n], ib)
    && st.nfOuter > 0 && st.fps > 0 && Lands(st, g, fpga, Window(st, n))
  }

  /** If parts that write the same place are parts of the same packet, they agree. */
  lemma AgreeIfSame<T>(st: Stream, g: Geometry, fpga: nat, ps: seq<Packet>, ib: nat, order: seq<nat>, parts: seq<Packet>,
                       patch: (Packet, nat) -> Option<T>)
    requires PartsOf(st, g, fpga, ps, ib, order, parts)
    requires forall a, b, i: nat :: 0 <= a < |parts| && 0 <= b < |parts| && patch(parts[a], i).Some? && patch(parts[b], i).Some?
                                    ==> order[a] == order[b]
    ensures AllAgree(parts, patch)
  {
    hide Lands, Window, BeamPart, Consistent;
    forall a, b, i: nat | 0 <= a < |parts| && 0 <= b < |parts| ensures Agree(parts[a], parts[b], patch, i) {
      assert PartIs(st, g, fpga, ps, ib, order[a], parts[a]) && PartIs(st, g, fpga, ps, ib, order[b], parts[b]);
    }
  }

  lemma PartsAgree(st: Stream, fi: Field, fw: Field, root: real -> real, single: real -> Float4, fpga: nat,
                   ps: seq<Packet>, ib: nat, g: Geometry, order: seq<nat>, parts: seq<Packet>)
    requires ValidStream(st) && ValidField(st, fi) && ValidField(st, fw) && Receives(st, g, fpga, ib)
    requires EncodesChunk(st, fi, fw, root, single, fpga, ps) && PartsOf(st, g, fpga, ps, ib, order, parts)
    ensures AllAgree(parts, DataPatch(g)) && AllAgree(parts, ScalePatch(g)) && AllAgree(parts, OffsetPatch(g))
  {
    assert ValidGeometry(g);
    hide At, ValidStream, ValidField, BeamPart, DataPatch, ScalePatch, OffsetPatch, Consistent, Receives, NthPacket, Lands,
         CoversByte, CoversFloat, AllAgree;
    forall a, b, i: nat | 0 <= a < |parts| && 0 <= b < |parts|
      ensures DataPatch(g)(parts[a], i).Some? && DataPatch(g)(parts[b], i).Some? ==> order[a] == order[b]
      ensures ScalePatch(g)(parts[a], i).Some? && ScalePatch(g)(parts[b], i).Some? ==> order[a] == order[b]
      ensures OffsetPatch(g)(parts[a], i).Some? && OffsetPatch(g)(parts[b], i).Some? ==> order[a] == order[b]
    {
      assert PartIs(st, g, fpga, ps, ib, order[a], parts[a]) && PartIs(st, g, fpga, ps, ib, order[b], parts[b]);
      PatchCovers(st, fi, fw, root, single, fpga, ps, ib, g, order[a], i);
      PatchCovers(st, fi, fw, root, single, fpga, ps, ib, g, order[b], i);
      if CoversByte(st, g, fpga, order[a], i) && CoversByte(st, g, fpga, order[b], i) {
        SamePacket(st, g, fpga, ib, order[a], order[b], i);
      }
      if CoversFloat(st, g, fpga, order[a], i) && CoversFloat(st, g, fpga, order[b], i) {
        SamePacket(st, g, fpga, ib, order[a], order[b], i);
      }
    }
    AgreeIfSame(st, g, fpga, ps, ib, order, parts, DataPatch(g));
    AgreeIfSame(st, g, fpga, ps, ib, order, parts, ScalePatch(g));
    AgreeIfSame(st, g, fpga, ps, ib, order, parts, OffsetPatch(g));
  }

  // ------------------------------------------------------------------------------------------------
  // End to end

  /** The arrays of a chunk of the receiver. */
  datatype Arrays = Arrays(data: seq<uint8>, scales: seq<Float4>, offsets: seq<Float4>)

  predicate ChunkArrays(g: Geometry, a: Arrays)
    requires ValidGeometry(g)
  {
    && |a.data| == At(At(NFREQ_COARSE, g.nupfreq, 0), NT_PER_CHUNK, 0)
    && |a.scales| == |a.offsets| == At(NFREQ_COARSE, NT_PER_CHUNK / g.ntp, 0)
  }

  /** After all parts have been added, one after the other. */
  function AfterAll(g: Geometry, a: Arrays, parts: seq<Packet>): Arrays
    requires ValidGeometry(g)
  {
    Arrays(ApplyAll(a.data, parts, DataPatch(g)), ApplyAll(a.scales, parts, ScalePatch(g)), ApplyAll(a.offsets, parts, OffsetPatch(g)))
  }

  /** Sample (u, t) of frequency F and window `it` is in its place, with the scale and the offset of its block. */
  predicate Arrived(st: Stream, fi: Field, fw: Field, root: real -> real, single: real -> Float4, fpga: nat, ib: nat,
                    g: Geometry, a: Arrays, it: nat, F: nat, u: nat, t: nat)
    requires ValidStream(st) && ValidField(st, fi) && ValidField(st, fw)
  {
    && ib < |st.beamIds| && it < st.ntOuter && F < |st.freqIds| && st.ntp > 0 && Lands(st, g, fpga, it)
    && var s, i, j := BlockSamples(st, fi, fw, ib, F, it), Target(st, g, fpga, it, F, u, t), FloatTarget(st, g, fpga, it, F);
    && !Degenerate(s)
    && i < |a.data| && EncodesSample(s, root, At(u, st.ntp, t), a.data[i])
    && j < |a.scales| && a.scales[j] == single(BlockScale(s, root))
    && j < |a.offsets| && a.offsets[j] == single(BlockOffset(s, root))
  }

  /**
    Whatever order the parts arrive in, and however often: every sample of every packet that reached the chunk is in the
    row of its frequency and at its time, as it was encoded, and so are the scale and the offset of its block.
  */
  lemma EndToEnd(st: Stream, fi: Field, fw: Field, root: real -> real, single: real -> Float4, fpga: nat,
                 ps: seq<Packet>, ib: nat, g: Geometry, a0: Arrays, order: seq<nat>, parts: seq<Packet>,
                 k: nat, f: nat, u: nat, t: nat)
    requires ValidStream(st) && ValidField(st, fi) && ValidField(st, fw) && Receives(st, g, fpga, ib) && ChunkArrays(g, a0)
    requires EncodesChunk(st, fi, fw, root, single, fpga, ps) && PartsOf(st, g, fpga, ps, ib, order, parts)
    requires k < |order| && f < st.nfp && u < st.nupfreq && t < st.ntp
    ensures st.nfOuter > 0
            && Arrived(st, fi, fw, root, single, fpga, ib, g, AfterAll(g, a0, parts), Window(st, order[k]),
                       At(Group(st, order[k]), st.nfp, f), u, t)
  {
    hide At, ValidStream, ValidField, EncodesPacket, Receives, BeamPart, Start, RowOf, ColumnOf, DataPatch, ScalePatch, OffsetPatch,
         BlockSamples, EncodesSample, ApplyAll, Consistent, First, BlockScale, BlockOffset, AllAgree, Degenerate;
    var n := order[k];
    var it, io := Window(st, n), Group(st, n);
    assert PartIs(st, g, fpga, ps, ib, n, parts[k]);
    assert NthPacket(st, fi, fw, root, single, fpga, ps, n);
    PartsAgree(st, fi, fw, root, single, fpga, ps, ib, g, order, parts);
    PartPlace(st, fi, fw, root, single, fpga, it, io, ps[n], ib, g);
    PositiveNtp(st);
    AtBound(io, st.nfOuter, st.nfp, f);
    var F := At(io, st.nfp, f);
    TargetInside(st, g, fpga, it, ib, F, u, t);
    PartWrites(st, fi, fw, root, single, fpga, it, io, ps[n], ib, g, f, u, t);
    AnyDecides(a0.data, parts, DataPatch(g), Target(st, g, fpga, it, F, u, t), k);
    AnyDecides(a0.scales, parts, ScalePatch(g), FloatTarget(st, g, fpga, it, F), k);
    AnyDecides(a0.offsets, parts, OffsetPatch(g), FloatTarget(st, g, fpga, it, F), k);
  }

  /** What the part of packet (it, io) writes. */
  lemma PartWrites(st: Stream, fi: Field, fw: Field, root: real -> real, single: real -> Float4, fpga: nat,
                   it: nat, io: nat, p: Packet, ib: nat, g: Geometry, f: nat, u: nat, t: nat)
    requires ValidStream(st) && ValidField(st, fi) && ValidField(st, fw) && Receives(st, g, fpga, ib)
    requires EncodesPacket(st, fi, fw, root, single, fpga, it, io, p) && st.fps > 0 && st.ntp > 0 && Lands(st, g, fpga, it)
    requires f < st.nfp && u < st.nupfreq && t < st.ntp && At(io, st.nfp, f) < |st.freqIds|
    ensures var part, F := BeamPart(p, ib), At(io, st.nfp, f);
            var s, i, j := BlockSamples(st, fi, fw, ib, F, it), Target(st, g, fpga, it, F, u, t), FloatTarget(st, g, fpga, it, F);
            && !Degenerate(s)
            && DataPatch(g)(part, i).Some? && EncodesSample(s, root, At(u, st.ntp, t), DataPatch(g)(part, i).value)
            && ScalePatch(g)(part, j) == Some(single(BlockScale(s, root)))
            && OffsetPatch(g)(part, j) == Some(single(BlockOffset(s, root)))
  {
    hide At, ValidStream, ValidField, EncodesPacket, Receives, BlockSamples, EncodesSample, BeamPart, DataPatch, ScalePatch,
         OffsetPatch, Start, First, Degenerate, BlockScale, BlockOffset;
    PartPlace(st, fi, fw, root, single, fpga, it, io, p, ib, g);
    AtColumn(io, st.nfp, 0, f);
    PartFields(st, fi, fw, root, single, fpga, it, io, p, ib);
    PartByte(st, fi, fw, root, single, fpga, it, io, p, ib, f, u, t);
    PartFloats(st, fi, fw, root, single, fpga, it, io, p, ib, f);
    PatchWrites(g, BeamPart(p, ib), f, u, t);
    FloatPatchWrites(g, BeamPart(p, ib), f);
  }

  lemma TargetInside(st: Stream, g: Geometry, fpga: nat, it: nat, ib: nat, F: nat, u: nat, t: nat)
    requires ValidStream(st) && Receives(st, g, fpga, ib) && st.ntp > 0 && Lands(st, g, fpga, it)
    requires F < |st.freqIds| && u < st.nupfreq && t < st.ntp
    ensures Target(st, g, fpga, it, F, u, t) < At(At(NFREQ_COARSE, g.nupfreq, 0), NT_PER_CHUNK, 0)
    ensures FloatTarget(st, g, fpga, it, F) < At(NFREQ_COARSE, NT_PER_CHUNK / g.ntp, 0)
  {
    hide At, HeaderSize, DataBytes, PowerOfTwo, First;
    var from := First(st, g, fpga, it);
    AtBound(st.freqIds[F], NFREQ_COARSE, st.nupfreq, u);
    AtBound(At(st.freqIds[F], st.nupfreq, u), At(NFREQ_COARSE, st.nupfreq, 0), NT_PER_CHUNK, from + t);
    CoarsePositive(g);
    QuotientBelow(from, g.ntp, NT_PER_CHUNK / g.ntp);
    AtBound(st.freqIds[F], NFREQ_COARSE, NT_PER_CHUNK / g.ntp, from / g.ntp);
  }

  /** What no packet covers stays as it was. */
  lemma UncoveredStays(st: Stream, fi: Field, fw: Field, root: real -> real, single: real -> Float4, fpga: nat,
                       ps: seq<Packet>, ib: nat, g: Geometry, a0: Arrays, order: seq<nat>, parts: seq<Packet>, i: nat)
    requires ValidStream(st) && ValidField(st, fi) && ValidField(st, fw) && Receives(st, g, fpga, ib)
    requires EncodesChunk(st, fi, fw, root, single, fpga, ps) && PartsOf(st, g, fpga, ps, ib, order, parts)
    ensures i < |a0.data| && (forall k :: 0 <= k < |order| ==> !CoversByte(st, g, fpga, order[k], i)) ==>
              AfterAll(g, a0, parts).data[i] == a0.data[i]
    ensures i < |a0.scales| && (forall k :: 0 <= k < |order| ==> !CoversFloat(st, g, fpga, order[k], i)) ==>
              AfterAll(g, a0, parts).scales[i] == a0.scales[i]
    ensures i < |a0.offsets| && (forall k :: 0 <= k < |order| ==> !CoversFloat(st, g, fpga, order[k], i)) ==>
              AfterAll(g, a0, parts).offsets[i] == a0.offsets[i]
  {
    assert ValidGeometry(g);
    hide At, ValidStream, ValidField, BeamPart, DataPatch, ScalePatch, OffsetPatch, Consistent, Receives, NthPacket, Lands,
         CoversByte, CoversFloat, ApplyAll;
    forall k | 0 <= k < |parts|
      ensures DataPatch(g)(parts[k], i).Some? ==> CoversByte(st, g, fpga, order[k], i)
      ensures ScalePatch(g)(parts[k], i).Some? ==> CoversFloat(st, g, fpga, order[k], i)
      ensures OffsetPatch(g)(parts[k], i).Some? ==> CoversFloat(st, g, fpga, order[k], i)
    {
      assert PartIs(st, g, fpga, ps, ib, order[k], parts[k]);
      PatchCovers(st, fi, fw, root, single, fpga, ps, ib, g, order[k], i);
    }
    if i < |a0.data| && !Overwritten(parts, DataPatch(g), i) { NotOverwritten(a0.data, parts, DataPatch(g), i); }
    if i < |a0.scales| && !Overwritten(parts, ScalePatch(g), i) { NotOverwritten(a0.scales, parts, ScalePatch(g), i); }
    if i < |a0.offsets| && !Overwritten(parts, OffsetPatch(g), i) { NotOverwritten(a0.offsets, parts, OffsetPatch(g), i); }
  }

  // ------------------------------------------------------------------------------------------------
  // What the receiver decodes

  /** Single precision loses nothing: arithmetic is over the reals. */
  ghost predicate Exact(single: real -> Float4, value: Float4 -> real) {
    forall x :: value(single(x)) == x
  }

  /** One row of the chunk, as the decoder sees it. */
  function ChunkRow(g: Geometry, a: Arrays, value: Float4 -> real, id: nat, u: nat): (r: FastDecode.Row)
    requires ValidGeometry(g) && ChunkArrays(g, a) && id < NFREQ_COARSE && u < g.nupfreq
    ensures FastDecode.ValidRow(r) && |r.data| == NT_PER_CHUNK && r.ntp == g.ntp
  {
    CoarsePositive(g);
    var w := NT_PER_CHUNK / g.ntp;
    RowInside(g, id, u);
    var from := At(At(id, g.nupfreq, u), NT_PER_CHUNK, 0);
    FastDecode.Row(a.data[from..from + NT_PER_CHUNK],
                   seq(w, c requires 0 <= c < w => CoarseInside(id, w, c); value(a.scales[At(id, w, c)])),
                   seq(w, c requires 0 <= c < w => CoarseInside(id, w, c); value(a.offsets[At(id, w, c)])), g.ntp)
  }

  /** Where a row is in the chunk: its bytes by frequency and fine frequency, its scales and offsets by frequency. */
  lemma RowIsProduct(g: Geometry, a: Arrays, value: Float4 -> real, id: nat, u: nat)
    requires ValidGeometry(g) && ChunkArrays(g, a) && id < NFREQ_COARSE && u < g.nupfreq
    ensures var r, from, w := ChunkRow(g, a, value, id, u), (id * g.nupfreq + u) * 1024, 1024 / g.ntp;
            && from + 1024 <= |a.data| && r.data == a.data[from..from + 1024]
            && |r.scales| == |r.offsets| == w
            && forall c :: 0 <= c < w ==> FloatsFound(a, value, id * w + c, r.scales[c], r.offsets[c])
  {
    CoarsePositive(g);
    RowInside(g, id, u);
    var w := NT_PER_CHUNK / g.ntp;
    hide At;
    AtIsProduct(id, g.nupfreq, u);
    AtIsProduct(At(id, g.nupfreq, u), NT_PER_CHUNK, 0);
    var r := ChunkRow(g, a, value, id, u);
    forall c | 0 <= c < w ensures FloatsFound(a, value, id * w + c, r.scales[c], r.offsets[c]) {
      CoarseInside(id, w, c);
      AtIsProduct(id, w, c);
    }
  }

  predicate FloatsFound(a: Arrays, value: Float4 -> real, k: nat, scale: real, offset: real) {
    k < |a.scales| && k < |a.offsets| && scale == value(a.scales[k]) && offset == value(a.offsets[k])
  }

  lemma RowInside(g: Geometry, id: nat, u: nat)
    requires id < NFREQ_COARSE && u < g.nupfreq
    ensures At(At(id, g.nupfreq, u), NT_PER_CHUNK, 0) + NT_PER_CHUNK <= At(At(NFREQ_COARSE, g.nupfreq, 0), NT_PER_CHUNK, 0)
  {
    hide At;
    AtBound(id, NFREQ_COARSE, g.nupfreq, u);
    ItemInside(At(NFREQ_COARSE, g.nupfreq, 0), NT_PER_CHUNK, At(id, g.nupfreq, u));
  }

  lemma CoarseInside(id: nat, w: nat, c: nat)
    requires id < NFREQ_COARSE && c < w
    ensures At(id, w, c) < At(NFREQ_COARSE, w, 0)
  {
    AtBound(id, NFREQ_COARSE, w, c);
  }

  lemma WithinRow(n: nat, c: nat, t: nat)
    requires t < n
    ensures (n * c + t) / n == c
  {
    QuotientIs(n * c + t, n, c, t);
  }

  lemma RowAt(g: Geometry, a: Arrays, value: Float4 -> real, id: nat, u: nat, T: nat, c: nat)
    requires ValidGeometry(g) && ChunkArrays(g, a) && id < NFREQ_COARSE && u < g.nupfreq
    requires T < NT_PER_CHUNK && c < NT_PER_CHUNK / g.ntp
    ensures At(At(id, g.nupfreq, u), NT_PER_CHUNK, T) < |a.data| && At(id, NT_PER_CHUNK / g.ntp, c) < |a.scales| == |a.offsets|
    ensures var row := ChunkRow(g, a, value, id, u);
            && c < |row.scales| && row.data[T] == a.data[At(At(id, g.nupfreq, u), NT_PER_CHUNK, T)]
            && row.scales[c] == value(a.scales[At(id, NT_PER_CHUNK / g.ntp, c)])
            && row.offsets[c] == value(a.offsets[At(id, NT_PER_CHUNK / g.ntp, c)])
  {
    hide At;
    RowInside(g, id, u);
    CoarseInside(id, NT_PER_CHUNK / g.ntp, c);
    AtColumn(At(id, g.nupfreq, u), NT_PER_CHUNK, 0, T);
  }

  /** The packet time of a sample is that of its window. */
  lemma CoarseTime(st: Stream, g: Geometry, fpga: nat, ib: nat, it: nat, t: nat)
    requires ValidStream(st) && Receives(st, g, fpga, ib) && st.ntp > 0 && Lands(st, g, fpga, it) && t < st.ntp
    ensures var from := First(st, g, fpga, it);
            && (from + t) / g.ntp == Coarse(st, g, fpga, it) < NT_PER_CHUNK / g.ntp && from + t < NT_PER_CHUNK
  {
    var c := FirstIsAligned(st, g, fpga, ib, it);
    hide First, ValidStream;
    WithinRow(st.ntp, c, t);
    WithinRow(st.ntp, c, 0);
    CoarsePositive(g);
    QuotientBelow(First(st, g, fpga, it), g.ntp, NT_PER_CHUNK / g.ntp);
  }

  lemma FrequencyInRange(st: Stream, F: nat)
    requires ValidStream(st) && F < |st.freqIds|
    ensures st.freqIds[F] < NFREQ_COARSE
  {
  }

  /** Byte, scale and offset that the decoder finds for one sample, at time T and packet time c. */
  predicate RowFinds(row: FastDecode.Row, T: nat, c: nat, d: uint8, scale: real, offset: real) {
    && FastDecode.ValidRow(row) && T < |row.data| && T / row.ntp == c < |row.scales|
    && row.data[T] == d && row.scales[c] == scale && row.offsets[c] == offset
  }

  lemma RowReads(st: Stream, g: Geometry, fpga: nat, ib: nat, a: Arrays, value: Float4 -> real, it: nat, F: nat, u: nat, t: nat)
    requires ValidStream(st) && Receives(st, g, fpga, ib) && st.ntp > 0 && Lands(st, g, fpga, it) && ChunkArrays(g, a)
    requires F < |st.freqIds| && u < st.nupfreq && t < st.ntp
    ensures st.freqIds[F] < NFREQ_COARSE
    ensures Target(st, g, fpga, it, F, u, t) < |a.data| && FloatTarget(st, g, fpga, it, F) < |a.scales| == |a.offsets|
    ensures RowFinds(ChunkRow(g, a, value, st.freqIds[F], u), First(st, g, fpga, it) + t, Coarse(st, g, fpga, it),
                     a.data[Target(st, g, fpga, it, F, u, t)],
                     value(a.scales[FloatTarget(st, g, fpga, it, F)]), value(a.offsets[FloatTarget(st, g, fpga, it, F)]))
  {
    FrequencyInRange(st, F);
    var q, r := Shapes(st, g, fpga, ib);
    assert ValidGeometry(g);
    CoarseTime(st, g, fpga, ib, it, t);
    hide At, ValidStream, ValidGeometry, First, ChunkRow, ChunkArrays, Lands;
    RowAt(g, a, value, st.freqIds[F], u, First(st, g, fpga, it) + t, Coarse(st, g, fpga, it));
  }

  lemma IntensityFound(row: FastDecode.Row, T: nat, c: nat, d: uint8, scale: real, offset: real)
    requires RowFinds(row, T, c, d, scale, offset)
    ensures FastDecode.ValidRow(row) && T < |row.data| && row.data[T] == d
    ensures FastDecode.Intensity(row, 1.0, T) == (scale * 1.0) * (d as real) + offset * 1.0
  {
  }

  /** A sample below the weight cutoff has weight zero, and one with weight one is within half a scale of what was sent. */
  predicate Close(row: FastDecode.Row, T: nat, x: real, w: real, cutoff: real, scale: real) {
    && FastDecode.ValidRow(row) && T < |row.data|
    && (w < cutoff ==> FastDecode.Weight(row.data[T]) == 0.0)
    && (FastDecode.Weight(row.data[T]) != 0.0 ==> -scale / 2.0 <= FastDecode.Intensity(row, 1.0, T) - x <= scale / 2.0)
  }

  /**
    Sample k of the block counts exactly if its weight reaches the cutoff.  If it does not, it has weight zero at the
    receiver; if it has not, it is off by at most half a scale, and 25 scales are the deviation of the block.
  */
  predicate CloseToSent(row: FastDecode.Row, T: nat, s: seq<Sample>, k: nat, x: real, w: real, cutoff: real, root: real -> real) {
    && k < |s| && s[k] == (if w >= cutoff then Valid(x) else Masked)
    && Close(row, T, x, w, cutoff, BlockScale(s, root)) && FitsPacket(s, BlockOffset(s, root), BlockScale(s, root))
  }

  lemma ScaleOfBlock(s: seq<Sample>, root: real -> real)
    requires IsRoot(root)
    ensures FitsPacket(s, BlockOffset(s, root), BlockScale(s, root))
  {
    if Count(s) > 0 { PacketIsFitted(s, root); }
  }

  lemma FoundIsClose(row: FastDecode.Row, T: nat, c: nat, d: uint8, s: seq<Sample>, root: real -> real, k: nat, x: real, w: real,
                     cutoff: real)
    requires IsRoot(root) && !Degenerate(s) && EncodesSample(s, root, k, d) && s[k] == Weighted(x, w, cutoff)
    requires RowFinds(row, T, c, d, BlockScale(s, root), BlockOffset(s, root))
    ensures Close(row, T, x, w, cutoff, BlockScale(s, root))
  {
    SampleIsClose(s, root, k, d);
    hide BlockScale, BlockOffset, Degenerate, EncodesSample;
    IntensityFound(row, T, c, d, BlockScale(s, root), BlockOffset(s, root));
    hide RowFinds, FastDecode.Intensity;
  }

  /**
    The intensity that the receiver decodes is close to the one that was sent: with x and w the elements of the sender's
    arrays for this beam, frequency, fine frequency and time.
  */
  lemma DecodedIsClose(st: Stream, fi: Field, fw: Field, root: real -> real, single: real -> Float4, value: Float4 -> real,
                       fpga: nat, ib: nat, g: Geometry, a: Arrays, it: nat, F: nat, u: nat, t: nat)
    requires ValidStream(st) && ValidField(st, fi) && ValidField(st, fw) && Receives(st, g, fpga, ib) && ChunkArrays(g, a)
    requires IsRoot(root) && Exact(single, value) && u < st.nupfreq && t < st.ntp
    requires Arrived(st, fi, fw, root, single, fpga, ib, g, a, it, F, u, t)
    ensures st.freqIds[F] < NFREQ_COARSE && At(u, st.ntp, t) < At(st.nupfreq, st.ntp, 0)
    ensures var p, q := ElementIndex(st, fi.stride, ib, F, it, u, t), ElementIndex(st, fw.stride, ib, F, it, u, t);
            && p < |fi.x| && q < |fw.x|
            && CloseToSent(ChunkRow(g, a, value, st.freqIds[F], u), First(st, g, fpga, it) + t,
                           BlockSamples(st, fi, fw, ib, F, it), At(u, st.ntp, t), fi.x[p], fw.x[q], st.cutoff, root)
  {
    assert ib < |st.beamIds| && it < st.ntOuter && F < |st.freqIds|;
    assert ValidGeometry(g);
    hide At, ValidStream, ValidField, ValidGeometry, Receives, ChunkArrays, ChunkRow, Arrived, Lands, First, BlockSamples, BlockValue,
         BlockScale, Close, IsRoot, Exact, ElementIndex, CloseToSent, FastDecode.ValidRow;
    BlockIsClose(st, fi, fw, root, single, value, fpga, ib, g, a, it, F, u, t);
    BlockValueIs(st, fi, ib, F, it, u, t);
    BlockValueIs(st, fw, ib, F, it, u, t);
    SampleIs(st, fi, fw, ib, F, it, At(u, st.ntp, t));
    SentIsClose(ChunkRow(g, a, value, st.freqIds[F], u), First(st, g, fpga, it) + t, BlockSamples(st, fi, fw, ib, F, it),
                At(u, st.ntp, t), BlockValue(st, fi, ib, F, it, At(u, st.ntp, t)), BlockValue(st, fw, ib, F, it, At(u, st.ntp, t)),
                st.cutoff, root);
  }

  lemma SentIsClose(row: FastDecode.Row, T: nat, s: seq<Sample>, k: nat, x: real, w: real, cutoff: real, root: real -> real)
    requires IsRoot(root) && k < |s| && s[k] == Weighted(x, w, cutoff) && Close(row, T, x, w, cutoff, BlockScale(s, root))
    ensures CloseToSent(row, T, s, k, x, w, cutoff, root)
  {
    hide Close, BlockScale, BlockOffset, FitsPacket;
    ScaleOfBlock(s, root);
  }

  lemma BlockIsClose(st: Stream, fi: Field, fw: Field, root: real -> real, single: real -> Float4, value: Float4 -> real,
                     fpga: nat, ib: nat, g: Geometry, a: Arrays, it: nat, F: nat, u: nat, t: nat)
    requires ValidStream(st) && ValidField(st, fi) && ValidField(st, fw) && Receives(st, g, fpga, ib) && ChunkArrays(g, a)
    requires IsRoot(root) && Exact(single, value) && u < st.nupfreq && t < st.ntp
    requires Arrived(st, fi, fw, root, single, fpga, ib, g, a, it, F, u, t)
    ensures st.freqIds[F] < NFREQ_COARSE && At(u, st.ntp, t) < At(st.nupfreq, st.ntp, 0)
    ensures var k := At(u, st.ntp, t);
            Close(ChunkRow(g, a, value, st.freqIds[F], u), First(st, g, fpga, it) + t,
                  BlockValue(st, fi, ib, F, it, k), BlockValue(st, fw, ib, F, it, k), st.cutoff,
                  BlockScale(BlockSamples(st, fi, fw, ib, F, it), root))
  {
    var q, r := Shapes(st, g, fpga, ib);
    assert ValidGeometry(g);
    hide At, ValidStream, ValidField, ValidGeometry, Coarse, Lands, Receives, ChunkArrays, BlockSamples, EncodesSample, Target, FloatTarget, First,
         BlockScale, BlockOffset, Degenerate, ChunkRow, BlockValue, RowFinds, Close;
    RowReads(st, g, fpga, ib, a, value, it, F, u, t);
    AtBound(u, st.nupfreq, st.ntp, t);
    var s, k := BlockSamples(st, fi, fw, ib, F, it), At(u, st.ntp, t);
    SampleIs(st, fi, fw, ib, F, it, k);
    FoundIsClose(ChunkRow(g, a, value, st.freqIds[F], u), First(st, g, fpga, it) + t, Coarse(st, g, fpga, it),
                 a.data[Target(st, g, fpga, it, F, u, t)], s, root, k,
                 BlockValue(st, fi, ib, F, it, k), BlockValue(st, fw, ib, F, it, k), st.cutoff);
  }

  lemma SampleIs(st: Stream, fi: Field, fw: Field, ib: nat, F: nat, it: nat, k: nat)
    requires ValidStream(st) && ValidField(st, fi) && ValidField(st, fw)
    requires ib < |st.beamIds| && F < |st.freqIds| && it < st.ntOuter && k < At(st.nupfreq, st.ntp, 0)
    ensures BlockSamples(st, fi, fw, ib, F, it)[k]
            == Weighted(BlockValue(st, fi, ib, F, it, k), BlockValue(st, fw, ib, F, it, k), st.cutoff)
  {
    hide At, ValidStream, ValidField, BlockValue;
  }

  /** What a byte says about its sample. */
  lemma SampleIsClose(s: seq<Sample>, root: real -> real, k: nat, d: uint8)
    requires IsRoot(root) && !Degenerate(s) && EncodesSample(s, root, k, d)
    ensures s[k].Masked? ==> Sentinel(d)
    ensures !Sentinel(d) ==>
              && s[k].Valid?
              && var scale := BlockScale(s, root);
              -scale / 2.0 <= (scale * 1.0) * (d as real) + BlockOffset(s, root) * 1.0 - s[k].x <= scale / 2.0
  {
    hide Count, AllZero, Sentinels, PacketMean, PacketScale, EncodeSample, Offset;
    if Count(s) > 0 {
      PacketSamplesAreGood(s, root, k);
    }
  }

  /** How many samples of a block count for the sender and come out with weight zero. */
  function Lost(s: seq<Sample>, weights: seq<real>): nat
    requires |weights| == |s|
  {
    if s == [] then 0
    else Lost(s[..|s| - 1], weights[..|s| - 1]) + if s[|s| - 1].Valid? && weights[|s| - 1] == 0.0 then 1 else 0
  }

  /** The weight with which the receiver decodes sample (u, t) of frequency F and window `it`. */
  function ReceivedWeight(st: Stream, g: Geometry, a: Arrays, value: Float4 -> real, fpga: nat, it: nat, F: nat, u: nat, t: nat): real
    requires st.fps > 0 && Lands(st, g, fpga, it) && ValidGeometry(g) && ChunkArrays(g, a)
    requires F < |st.freqIds| && st.freqIds[F] < NFREQ_COARSE && u < g.nupfreq && t < st.ntp
  {
    FastDecode.Weight(ChunkRow(g, a, value, st.freqIds[F], u).data[First(st, g, fpga, it) + t])
  }

  /** The whole block has arrived, and `weights` is what the receiver decodes for it. */
  predicate BlockArrived(st: Stream, fi: Field, fw: Field, root: real -> real, single: real -> Float4, value: Float4 -> real,
                         fpga: nat, ib: nat, g: Geometry, a: Arrays, it: nat, F: nat, weights: seq<real>)
    requires ValidStream(st) && ValidField(st, fi) && ValidField(st, fw) && ValidGeometry(g) && ChunkArrays(g, a)
  {
    && |weights| == At(st.nupfreq, st.ntp, 0)
    && forall u, t :: 0 <= u < st.nupfreq && 0 <= t < st.ntp ==>
         && Arrived(st, fi, fw, root, single, fpga, ib, g, a, it, F, u, t)
         && u < g.nupfreq && st.freqIds[F] < NFREQ_COARSE && At(u, st.ntp, t) < |weights|
         && weights[At(u, st.ntp, t)] == ReceivedWeight(st, g, a, value, fpga, it, F, u, t)
  }

  lemma {:induction false} LostAreSentinels(s: seq<Sample>, weights: seq<real>, mean: real, scale: real)
    requires |weights| == |s| && scale > 0.0
    requires forall k :: 0 <= k < |s| ==> (weights[k] == 0.0 <==> Sentinel(EncodeSample(s[k], mean, scale)))
    ensures Lost(s, weights) == Sentinels(s, mean, scale)
  {
    hide EncodeSample, Sentinel;
    if s != [] { LostAreSentinels(s[..|s| - 1], weights[..|s| - 1], mean, scale); }
  }

  /** The weight is zero exactly if the byte of the sample is a sentinel. */
  predicate Tells(s: seq<Sample>, root: real -> real, k: nat, w: real) {
    exists d: uint8 :: EncodesSample(s, root, k, d) && (w == 0.0 <==> Sentinel(d))
  }

  lemma WeightSays(st: Stream, fi: Field, fw: Field, root: real -> real, single: real -> Float4, value: Float4 -> real, fpga: nat,
                   ib: nat, g: Geometry, a: Arrays, it: nat, F: nat, weights: seq<real>, k: nat)
    requires ValidStream(st) && ValidField(st, fi) && ValidField(st, fw) && Receives(st, g, fpga, ib) && ChunkArrays(g, a)
    requires BlockArrived(st, fi, fw, root, single, value, fpga, ib, g, a, it, F, weights) && k < |weights|
    ensures ib < |st.beamIds| && F < |st.freqIds| && it < st.ntOuter
    ensures var s := BlockSamples(st, fi, fw, ib, F, it);
            !Degenerate(s) && Tells(s, root, k, weights[k])
  {
    var u, t := AtCovers(k, st.nupfreq, st.ntp);
    hide At, ValidStream, ValidField, Receives, ChunkArrays, BlockSamples, EncodesSample, Degenerate, Lands, First, Coarse, Target,
         FloatTarget, ChunkRow, BlockScale, BlockOffset;
    assert Arrived(st, fi, fw, root, single, fpga, ib, g, a, it, F, u, t);
    RowReads(st, g, fpga, ib, a, value, it, F, u, t);
    var d := a.data[Target(st, g, fpga, it, F, u, t)];
    assert EncodesSample(BlockSamples(st, fi, fw, ib, F, it), root, k, d);
  }

  /** And of the samples of a block that count, at most one in 25 comes out with weight zero. */
  lemma FewAreLost(st: Stream, fi: Field, fw: Field, root: real -> real, single: real -> Float4, value: Float4 -> real, fpga: nat,
                   ib: nat, g: Geometry, a: Arrays, it: nat, F: nat, weights: seq<real>)
    requires ValidStream(st) && ValidField(st, fi) && ValidField(st, fw) && Receives(st, g, fpga, ib) && ChunkArrays(g, a)
    requires IsRoot(root) && ib < |st.beamIds| && F < |st.freqIds| && it < st.ntOuter
    requires BlockArrived(st, fi, fw, root, single, value, fpga, ib, g, a, it, F, weights)
    ensures var s := BlockSamples(st, fi, fw, ib, F, it);
            |weights| == |s| && 25 * Lost(s, weights) <= Count(s)
  {
    var s := BlockSamples(st, fi, fw, ib, F, it);
    assert |weights| == |s|;
    hide BlockArrived, ValidStream, ValidField, Receives, ChunkArrays, BlockSamples, Tells, Degenerate, At, IsRoot, Lost, Count;
    if s != [] { WeightSays(st, fi, fw, root, single, value, fpga, ib, g, a, it, F, weights, 0); }
    forall k | 0 <= k < |s| ensures Tells(s, root, k, weights[k]) {
      WeightSays(st, fi, fw, root, single, value, fpga, ib, g, a, it, F, weights, k);
    }
    hide *;
    FewWeightless(s, root, weights);
  }

  lemma FewWeightless(s: seq<Sample>, root: real -> real, weights: seq<real>)
    requires IsRoot(root) && |weights| == |s|
    requires (s != [] ==> !Degenerate(s)) && forall k :: 0 <= k < |s| ==> Tells(s, root, k, weights[k])
    ensures 25 * Lost(s, weights) <= Count(s)
  {
    hide Count, AllZero, Sentinels, PacketMean, PacketScale, EncodeSample, Lost, Sentinel;
    if Count(s) == 0 {
      NoneCounts(s, weights);
    } else {
      CountsSome(s);
      PacketSamplesAreGood(s, root, 0);
      forall k | 0 <= k < |s|
        ensures weights[k] == 0.0 <==> Sentinel(EncodeSample(s[k], PacketMean(s), PacketScale(s, root)))
      {
        assert Tells(s, root, k, weights[k]);
      }
      LostAreSentinels(s, weights, PacketMean(s), PacketScale(s, root));
    }
  }

  lemma {:induction false} NoneCounts(s: seq<Sample>, weights: seq<real>)
    requires Count(s) == 0 && |weights| == |s|
    ensures Lost(s, weights) == 0
  {
    if s != [] { NoneCounts(s[..|s| - 1], weights[..|s| - 1]); }
  }

  lemma CountsSome(s: seq<Sample>)
    requires Count(s) > 0
    ensures |s| > 0
  {
  }
}
