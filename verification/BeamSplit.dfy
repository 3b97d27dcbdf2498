/**
  Splitting a received packet by beam, in place: the length fields are shortened once, and the positions advance by
  one beam at a time.  Then each beam's part goes to the assembler with the same beam identifier, or is counted.
*/
module BeamSplit {
  import opened BitMatrix
  import opened EncodeBound
  import opened PacketFormat

  /** Data bytes of one beam. */
  function BeamBytes(h: Header): nat { At(At(h.nfreq, h.nupfreq, 0), h.ntsamp, 0) }

  /** The part of a packet that belongs to beam number ib. */
  function BeamPart(p: Packet, ib: nat): Packet
    requires Consistent(p) && ib < p.h.nbeams
  {
    BeamInside(p.h, ib);
    Packet(p.h.(nbeams := 1, dataNbytes := BeamBytes(p.h)), p.beamIds[ib..ib + 1], p.freqIds,
           p.scales[At(ib, p.h.nfreq, 0)..At(ib, p.h.nfreq, 0) + p.h.nfreq],
           p.offsets[At(ib, p.h.nfreq, 0)..At(ib, p.h.nfreq, 0) + p.h.nfreq],
           p.data[At(ib, BeamBytes(p.h), 0)..At(ib, BeamBytes(p.h), 0) + BeamBytes(p.h)])
  }

  lemma DataByBeam(h: Header)
    ensures DataBytes(h) == At(h.nbeams, BeamBytes(h), 0)
    ensures At(Blocks(h), 4, 0) == At(h.nbeams, At(h.nfreq, 4, 0), 0)
  {
    hide At;
    NestedStart(h.nbeams, h.nfreq, h.nupfreq);
    NestedStart(h.nbeams, At(h.nfreq, h.nupfreq, 0), h.ntsamp);
    NestedStart(h.nbeams, h.nfreq, 4);
  }

  lemma NestedStart(i: nat, n: nat, width: nat)
    ensures At(At(i, n, 0), width, 0) == At(i, At(n, width, 0), 0)
  {
    hide At;
    AtNested(i, n, 0, width, 0);
    AtNone(width);
  }

  lemma BeamInside(h: Header, ib: nat)
    requires ib < h.nbeams
    ensures At(ib, h.nfreq, 0) + h.nfreq <= Blocks(h)
    ensures At(ib, BeamBytes(h), 0) + BeamBytes(h) <= DataBytes(h)
    ensures At(ib, At(h.nfreq, 4, 0), 0) + At(h.nfreq, 4, 0) <= At(Blocks(h), 4, 0)
    ensures At(ib, 2, 0) + 2 <= At(h.nbeams, 2, 0)
  {
    hide At;
    DataByBeam(h);
    ItemInside(h.nbeams, h.nfreq, ib);
    ItemInside(h.nbeams, BeamBytes(h), ib);
    ItemInside(h.nbeams, At(h.nfreq, 4, 0), ib);
    ItemInside(h.nbeams, 2, ib);
  }

  /** Byte (f, u, t) of beam ib's part is byte (ib, f, u, t) of the packet. */
  lemma BeamCell(p: Packet, ib: nat, f: nat, u: nat, t: nat)
    requires Consistent(p) && ib < p.h.nbeams && f < p.h.nfreq && u < p.h.nupfreq && t < p.h.ntsamp
    ensures At(At(f, p.h.nupfreq, u), p.h.ntsamp, t) < |BeamPart(p, ib).data|
    ensures At(At(At(ib, p.h.nfreq, f), p.h.nupfreq, u), p.h.ntsamp, t) < |p.data|
    ensures BeamPart(p, ib).data[At(At(f, p.h.nupfreq, u), p.h.ntsamp, t)]
            == p.data[At(At(At(ib, p.h.nfreq, f), p.h.nupfreq, u), p.h.ntsamp, t)]
  {
    hide At;
    var h := p.h;
    BeamInside(h, ib);
    var row := At(f, h.nupfreq, u);
    AtBound(f, h.nfreq, h.nupfreq, u);
    AtBound(row, At(h.nfreq, h.nupfreq, 0), h.ntsamp, t);
    AtNested(ib, h.nfreq, f, h.nupfreq, u);
    AtNested(ib, At(h.nfreq, h.nupfreq, 0), row, h.ntsamp, t);
    AtColumn(ib, BeamBytes(h), 0, At(row, h.ntsamp, t));
  }

  /** The view after ib beams have been passed over. */
  function BeamView(v: View, ib: nat): View {
    View(v.h.(nbeams := 1, dataNbytes := BeamBytes(v.h)), v.beamIds + At(ib, 2, 0), v.freqIds,
         v.scales + At(ib, At(v.h.nfreq, 4, 0), 0), v.offsets + At(ib, At(v.h.nfreq, 4, 0), 0), v.data + At(ib, BeamBytes(v.h), 0))
  }

  lemma OneBeam(h: Header)
    ensures var h1 := h.(nbeams := 1, dataNbytes := BeamBytes(h));
            Blocks(h1) == h.nfreq && DataBytes(h1) == BeamBytes(h) && At(1, 2, 0) == 2
  {
    assert At(1, h.nfreq, 0) == h.nfreq + At(0, h.nfreq, 0);
    assert At(1, 2, 0) == 2 + At(0, 2, 0);
  }

  lemma PartInside(n: nat, size: nat, from: nat, k: nat)
    requires from + k <= n
    ensures At(from, size, 0) + At(k, size, 0) <= At(n, size, 0)
  {
    hide At;
    AtRows(from, k, size, 0);
    AtRows(from + k, n - from - k, size, 0);
  }

  lemma PartItem(b: seq<uint8>, at: nat, n: nat, size: nat, from: nat, k: nat, i: nat)
    requires at + At(n, size, 0) <= |b| && from + k <= n && i < k
    requires at + At(from, size, 0) + At(k, size, 0) <= |b|
    ensures ItemIn(b, at + At(from, size, 0), k, size, i) == ItemIn(b, at, n, size, from + i)
  {
    hide At;
    AtRows(from, i, size, 0);
    ItemIs(b, at + At(from, size, 0), k, size, i);
    ItemIs(b, at, n, size, from + i);
  }

  /** Items of a slice of an array. */
  lemma ItemsOfPart(b: seq<uint8>, at: nat, n: nat, size: nat, from: nat, k: nat)
    requires at + At(n, size, 0) <= |b| && from + k <= n
    ensures at + At(from, size, 0) + At(k, size, 0) <= |b|
    ensures ReadItems(b, at + At(from, size, 0), k, size) == ReadItems(b, at, n, size)[from..from + k]
  {
    hide At, ItemIn;
    PartInside(n, size, from, k);
    var x, y := ReadItems(b, at + At(from, size, 0), k, size), ReadItems(b, at, n, size)[from..from + k];
    forall i | 0 <= i < k ensures x[i] == y[i] {
      PartItem(b, at, n, size, from, k, i);
    }
  }

  lemma ItemIs(b: seq<uint8>, at: nat, n: nat, size: nat, i: nat)
    requires at + At(n, size, 0) <= |b| && i < n
    ensures at + At(i, size, 0) + size <= |b|
    ensures ItemIn(b, at, n, size, i) == b[at + At(i, size, 0)..at + At(i, size, 0) + size]
  {
    ItemInside(n, size, i);
  }

  /** What the advanced view sees is that beam's part of the packet. */
  lemma BeamViewReads(b: seq<uint8>, v: View, ib: nat)
    requires Fits(b, v) && HeaderInRange(v.h) && Consistent(ReadPacket(b, v)) && ib < v.h.nbeams
    ensures Fits(b, BeamView(v, ib)) && ReadPacket(b, BeamView(v, ib)) == BeamPart(ReadPacket(b, v), ib)
  {
    hide At, ReadItems, Blocks, DataBytes, BeamBytes, ReadIds;
    var h, w := v.h, BeamView(v, ib);
    BeamInside(h, ib);
    OneBeam(h);
    FourByFrequency(h, ib);
    ItemsOfPart(b, v.beamIds, h.nbeams, 2, ib, 1);
    ItemsOfPart(b, v.scales, Blocks(h), 4, At(ib, h.nfreq, 0), h.nfreq);
    ItemsOfPart(b, v.offsets, Blocks(h), 4, At(ib, h.nfreq, 0), h.nfreq);
    IdsOfPart(ReadItems(b, v.beamIds, h.nbeams, 2), ib);
    var from := At(ib, BeamBytes(h), 0);
    SliceOfSlice(b, v.data, v.data + DataBytes(h), from, from + BeamBytes(h));
  }

  lemma FourByFrequency(h: Header, ib: nat)
    ensures At(ib, At(h.nfreq, 4, 0), 0) == At(At(ib, h.nfreq, 0), 4, 0)
  {
    NestedStart(ib, h.nfreq, 4);
  }

  lemma IdsOfPart(w: seq<seq<uint8>>, i: nat)
    requires i < |w|
    ensures ReadIds(w[i..i + 1]) == ReadIds(w)[i..i + 1]
  {
  }

  // ------------------------------------------------------------------------------------------------
  // The loop over beams

  /** Where one beam's part goes: to the first assembler with that identifier, if there is one. */
  datatype Delivery = To(assembler: nat, part: Packet) | NoMatch(beamId: nat)

  /** The part went to the first assembler with its beam identifier, or there is none. */
  predicate Delivered(beamIds: seq<nat>, part: Packet, d: Delivery) {
    && |part.beamIds| == 1
    && match d
       case To(ix, p) => p == part && ix < |beamIds| && beamIds[ix] == part.beamIds[0] && part.beamIds[0] !in beamIds[..ix]
       case NoMatch(id) => id == part.beamIds[0] && id !in beamIds
  }

  lemma AcceptedView(src: seq<uint8>)
    requires Accepts(src)
    ensures var v := ViewOf(ReadHeader(src));
            && Fits(src, v) && HeaderInRange(v.h) && Consistent(ReadPacket(src, v)) && ReadPacket(src, v).h == v.h
  {
    AcceptedIsSerialized(src);
  }

  /** The loop of the assembler thread over the beams of one good packet. */
  method SplitByBeam(src: seq<uint8>, v0: View, beamIds: seq<nat>) returns (out: seq<Delivery>)
    requires Accepts(src) && v0 == ViewOf(ReadHeader(src)) && v0.h.nbeams == |beamIds|
    ensures Fits(src, v0) && Consistent(ReadPacket(src, v0)) && |out| == |beamIds|
    ensures forall ib :: 0 <= ib < |out| ==> Delivered(beamIds, BeamPart(ReadPacket(src, v0), ib), out[ib])
  {
    hide At, BeamPart, Accepts, BeamBytes, Blocks, DataBytes, ReadPacket, Consistent, Serialize, BeamView, Fits, Delivered, ViewOf;
    AcceptedView(src);
    ghost var p := ReadPacket(src, v0);
    var nfreq := v0.h.nfreq;
    var newDataNbytes := BeamBytes(v0.h);
    var v := v0.(h := v0.h.(dataNbytes := newDataNbytes, nbeams := 1));
    BeamViewStarts(v0);
    out := [];
    for ib := 0 to |beamIds|
      invariant v == BeamView(v0, ib) && |out| == ib
      invariant forall j :: 0 <= j < ib ==> Delivered(beamIds, BeamPart(p, j), out[j])
    {
      BeamViewReads(src, v0, ib);
      PartHasOneBeam(p, ib);
      var part := ReadPacket(src, v);
      var packetId := part.beamIds[0];
      var d := FindAssembler(beamIds, packetId, part);
      out := out + [d];
      BeamViewAdvances(v0, ib);
      v := v.(beamIds := v.beamIds + 2, scales := v.scales + At(nfreq, 4, 0), offsets := v.offsets + At(nfreq, 4, 0),
              data := v.data + newDataNbytes);
    }
  }

  method FindAssembler(beamIds: seq<nat>, packetId: nat, part: Packet) returns (d: Delivery)
    requires |part.beamIds| == 1 && part.beamIds[0] == packetId
    ensures Delivered(beamIds, part, d)
  {
    var ix := 0;
    while true
      invariant ix <= |beamIds| && packetId !in beamIds[..ix]
      decreases |beamIds| - ix
    {
      if ix >= |beamIds| { return NoMatch(packetId); }
      if beamIds[ix] != packetId {
        assert beamIds[..ix + 1] == beamIds[..ix] + [beamIds[ix]];
        ix := ix + 1;
        continue;
      }
      return To(ix, part);
    }
  }

  lemma PartHasOneBeam(p: Packet, ib: nat)
    requires Consistent(p) && ib < p.h.nbeams
    ensures |BeamPart(p, ib).beamIds| == 1
  {
  }

  lemma BeamViewStarts(v: View)
    ensures BeamView(v, 0) == v.(h := v.h.(dataNbytes := BeamBytes(v.h), nbeams := 1))
  {
    AtNone(2);
    AtNone(At(v.h.nfreq, 4, 0));
    AtNone(BeamBytes(v.h));
  }

  lemma BeamViewAdvances(v: View, ib: nat)
    ensures var w := BeamView(v, ib);
            BeamView(v, ib + 1) == w.(beamIds := w.beamIds + 2, scales := w.scales + At(v.h.nfreq, 4, 0),
                                      offsets := w.offsets + At(v.h.nfreq, 4, 0), data := w.data + BeamBytes(v.h))
  {
    hide At;
    NextItem(ib, 2);
    NextItem(ib, At(v.h.nfreq, 4, 0));
    NextItem(ib, BeamBytes(v.h));
  }
}
