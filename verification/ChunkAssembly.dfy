/**
  Copying a packet of one beam into its chunk, by the reference and by the vectorized copy, and what any sequence of
  packets leaves behind: the order matters only where packets disagree.
*/
module ChunkAssembly {
  import opened BitMatrix
  import opened EncodeBound
  import opened Options
  import opened PacketFormat
  import opened Products

  const NT_PER_CHUNK := 1024

  // ------------------------------------------------------------------------------------------------
  // Overwriting parts of a sequence, again and again

  /** Item p overwrites position i, or leaves it alone. */
  function Apply<P, T>(s: seq<T>, p: P, f: (P, nat) -> Option<T>): (r: seq<T>)
    ensures |r| == |s| && forall i :: 0 <= i < |s| ==> r[i] == match f(p, i) case None => s[i] case Some(x) => x
  {
    seq(|s|, i requires 0 <= i < |s| => match f(p, i) case None => s[i] case Some(x) => x)
  }

  function ApplyAll<P, T>(s: seq<T>, ps: seq<P>, f: (P, nat) -> Option<T>): (r: seq<T>)
    ensures |r| == |s|
  {
    if ps == [] then s else Apply(ApplyAll(s, ps[..|ps| - 1], f), ps[|ps| - 1], f)
  }

  /** Some item overwrites position i. */
  predicate Overwritten<P, T>(ps: seq<P>, f: (P, nat) -> Option<T>, i: nat) {
    exists k :: 0 <= k < |ps| && f(ps[k], i).Some?
  }

  /** The last item that overwrites a position decides. */
  lemma {:induction false} LastWins<P, T>(s: seq<T>, ps: seq<P>, f: (P, nat) -> Option<T>, i: nat, k: nat)
    requires i < |s| && k < |ps| && f(ps[k], i).Some? && forall j :: k < j < |ps| ==> f(ps[j], i).None?
    ensures ApplyAll(s, ps, f)[i] == f(ps[k], i).value
  {
    if k < |ps| - 1 {
      assert f(ps[|ps| - 1], i).None?;
      LastWins(s, ps[..|ps| - 1], f, i, k);
    }
  }

  lemma {:induction false} NotOverwritten<P, T>(s: seq<T>, ps: seq<P>, f: (P, nat) -> Option<T>, i: nat)
    requires i < |s| && !Overwritten(ps, f, i)
    ensures ApplyAll(s, ps, f)[i] == s[i]
  {
    if ps != [] {
      assert f(ps[|ps| - 1], i).None?;
      assert forall k :: 0 <= k < |ps| - 1 ==> ps[..|ps| - 1][k] == ps[k];
      NotOverwritten(s, ps[..|ps| - 1], f, i);
    }
  }

  /** No two items disagree about a position. */
  ghost predicate Agree<P, T>(p: P, q: P, f: (P, nat) -> Option<T>, i: nat) {
    f(p, i).Some? && f(q, i).Some? ==> f(p, i) == f(q, i)
  }

  ghost predicate AllAgree<P, T>(ps: seq<P>, f: (P, nat) -> Option<T>) {
    forall j, k, i: nat :: 0 <= j < |ps| && 0 <= k < |ps| ==> Agree(ps[j], ps[k], f, i)
  }

  lemma {:induction false} AnyDecides<P, T>(s: seq<T>, ps: seq<P>, f: (P, nat) -> Option<T>, i: nat, k: nat)
    requires AllAgree(ps, f) && i < |s| && k < |ps| && f(ps[k], i).Some?
    ensures ApplyAll(s, ps, f)[i] == f(ps[k], i).value
  {
    var last := |ps| - 1;
    assert Agree(ps[last], ps[k], f, i);
    if f(ps[last], i).None? {
      var front := ps[..last];
      forall a, b, i': nat | 0 <= a < |front| && 0 <= b < |front| ensures Agree(front[a], front[b], f, i') {
        assert Agree(ps[a], ps[b], f, i');
      }
      AnyDecides(s, front, f, i, k);
    }
  }

  /** Items that agree may come in any order, and any number of times. */
  lemma OrderDoesNotMatter<P, T>(s: seq<T>, ps: seq<P>, qs: seq<P>, f: (P, nat) -> Option<T>)
    requires AllAgree(ps, f)
    requires (forall k :: 0 <= k < |ps| ==> ps[k] in qs) && (forall k :: 0 <= k < |qs| ==> qs[k] in ps)
    ensures ApplyAll(s, ps, f) == ApplyAll(s, qs, f)
  {
    forall j, k, i: nat | 0 <= j < |qs| && 0 <= k < |qs| ensures Agree(qs[j], qs[k], f, i) {
      assert qs[j] in ps && qs[k] in ps;
      var j', k' :| 0 <= j' < |ps| && 0 <= k' < |ps| && ps[j'] == qs[j] && ps[k'] == qs[k];
      assert Agree(ps[j'], ps[k'], f, i);
    }
    forall i | 0 <= i < |s| ensures ApplyAll(s, ps, f)[i] == ApplyAll(s, qs, f)[i] {
      if Overwritten(ps, f, i) {
        var k :| 0 <= k < |ps| && f(ps[k], i).Some?;
        assert ps[k] in qs;
        var k' :| 0 <= k' < |qs| && qs[k'] == ps[k];
        AnyDecides(s, ps, f, i, k);
        AnyDecides(s, qs, f, i, k');
      } else {
        forall k | 0 <= k < |qs| ensures f(qs[k], i).None? {
          assert qs[k] in ps;
        }
        NotOverwritten(s, ps, f, i);
        NotOverwritten(s, qs, f, i);
      }
    }
  }

  // ------------------------------------------------------------------------------------------------
  // What a packet overwrites

  /** Which chunk: its beam, the shape of its packets, and its first sample. */
  datatype Geometry = Geometry(beamId: nat, nupfreq: nat, ntp: nat, fps: nat, isample: nat)

  predicate ValidGeometry(g: Geometry) {
    g.nupfreq > 0 && g.ntp > 0 && g.fps > 0 && NT_PER_CHUNK % g.ntp == 0 && g.isample % g.ntp == 0
  }

  /** First sample of the packet, relative to the chunk. */
  function Start(g: Geometry, p: Packet): int
    requires g.fps > 0
  {
    p.h.fpgaCount / g.fps - g.isample
  }

  /** The checks of `add_packet`. */
  predicate Belongs(g: Geometry, p: Packet)
    requires ValidGeometry(g)
  {
    && p.h.nbeams == 1 && p.h.nupfreq == g.nupfreq && p.h.ntsamp == g.ntp && p.h.fpgaPerSample == g.fps
    && FpgaStep(g) > 0 && p.h.fpgaCount % FpgaStep(g) == 0
    && |p.beamIds| == 1 && p.beamIds[0] == g.beamId
    && 0 <= Start(g, p) && Start(g, p) + g.ntp <= NT_PER_CHUNK
  }

  function FpgaStep(g: Geometry): nat { g.fps * g.ntp }

  predicate FreqsInRange(p: Packet) {
    forall f :: 0 <= f < |p.freqIds| ==> p.freqIds[f] < NFREQ_COARSE
  }

  /** The last of the first n frequency channels with this identifier, or -1. */
  function LastChannel(ids: seq<nat>, id: nat, n: nat): (f: int)
    requires n <= |ids|
    ensures -1 <= f < n && (f >= 0 ==> ids[f] == id) && forall j :: f < j < n ==> ids[j] != id
  {
    if n == 0 then -1 else if ids[n - 1] == id then n - 1 else LastChannel(ids, id, n - 1)
  }

  /** While channel n is being copied, row u of a frequency already comes from it. */
  function Channel(p: Packet, id: nat, u: nat, n: nat, rows: nat): (f: int)
    requires n <= |p.freqIds|
    ensures -1 <= f < |p.freqIds|
  {
    if n < |p.freqIds| && p.freqIds[n] == id && u < rows then n else LastChannel(p.freqIds, id, n)
  }

  /** Byte (id, u, t) of the chunk, when n channels have been copied, and some rows of the next. */
  function Cell(g: Geometry, p: Packet, id: nat, u: nat, t: nat, n: nat, rows: nat): Option<uint8>
    requires g.fps > 0
  {
    if n > |p.freqIds| then None
    else
      var f := Channel(p, id, u, n, rows);
      if f < 0 || !(Start(g, p) <= t < Start(g, p) + g.ntp) then None
      else
        var i := At(At(f, g.nupfreq, u), g.ntp, t - Start(g, p));
        if i < |p.data| then Some(p.data[i]) else None
  }

  function CellAt(g: Geometry, p: Packet, i: nat, n: nat, rows: nat): Option<uint8>
    requires ValidGeometry(g)
  {
    var row := RowOf(i, NT_PER_CHUNK);
    Cell(g, p, RowOf(row, g.nupfreq), ColumnOf(row, g.nupfreq), ColumnOf(i, NT_PER_CHUNK), n, rows)
  }

  /** What the whole packet does to the data. */
  function DataPatch(g: Geometry): (Packet, nat) -> Option<uint8>
    requires ValidGeometry(g)
  {
    (p: Packet, i: nat) => CellAt(g, p, i, |p.freqIds|, 0)
  }

  /** The same for the scales and the offsets, one for each packet time. */
  function FloatCell(g: Geometry, p: Packet, v: seq<Float4>, id: nat, c: nat, n: nat): Option<Float4>
    requires g.fps > 0 && g.ntp > 0
  {
    if n > |p.freqIds| then None
    else
      var f := LastChannel(p.freqIds, id, n);
      if 0 <= f < |v| && Start(g, p) >= 0 && c == Start(g, p) / g.ntp then Some(v[f]) else None
  }

  function FloatCellAt(g: Geometry, p: Packet, v: seq<Float4>, i: nat, n: nat): Option<Float4>
    requires ValidGeometry(g)
  {
    CoarsePositive(g);
    FloatCell(g, p, v, RowOf(i, NT_PER_CHUNK / g.ntp), ColumnOf(i, NT_PER_CHUNK / g.ntp), n)
  }

  lemma CoarsePositive(g: Geometry)
    requires ValidGeometry(g)
    ensures NT_PER_CHUNK / g.ntp > 0 && g.ntp * (NT_PER_CHUNK / g.ntp) == NT_PER_CHUNK
  {
    var q := NT_PER_CHUNK / g.ntp;
    assert NT_PER_CHUNK == g.ntp * q + NT_PER_CHUNK % g.ntp;
  }

  function ScalePatch(g: Geometry): (Packet, nat) -> Option<Float4>
    requires ValidGeometry(g)
  {
    (p: Packet, i: nat) => FloatCellAt(g, p, p.scales, i, |p.freqIds|)
  }

  function OffsetPatch(g: Geometry): (Packet, nat) -> Option<Float4>
    requires ValidGeometry(g)
  {
    (p: Packet, i: nat) => FloatCellAt(g, p, p.offsets, i, |p.freqIds|)
  }

  // ------------------------------------------------------------------------------------------------
  // Copying

  /** The data when n channels, and some rows of the next, have been copied. */
  predicate Copied(g: Geometry, p: Packet, d0: seq<uint8>, d: seq<uint8>, n: nat, rows: nat)
    requires ValidGeometry(g)
  {
    |d| == |d0| && forall i :: 0 <= i < |d0| ==> CellCopied(g, p, d0, d, i, n, rows)
  }

  predicate CellCopied(g: Geometry, p: Packet, d0: seq<uint8>, d: seq<uint8>, i: nat, n: nat, rows: nat)
    requires ValidGeometry(g)
  {
    && i < |d| && i < |d0|
    && d[i] == match CellAt(g, p, i, n, rows) case None => d0[i] case Some(x) => x
  }

  predicate FloatsCopied(g: Geometry, p: Packet, v: seq<Float4>, s0: seq<Float4>, s: seq<Float4>, n: nat)
    requires ValidGeometry(g)
  {
    |s| == |s0| && forall i :: 0 <= i < |s0| ==> FloatCopied(g, p, v, s0, s, i, n)
  }

  predicate FloatCopied(g: Geometry, p: Packet, v: seq<Float4>, s0: seq<Float4>, s: seq<Float4>, i: nat, n: nat)
    requires ValidGeometry(g)
  {
    && i < |s| && i < |s0|
    && s[i] == match FloatCellAt(g, p, v, i, n) case None => s0[i] case Some(x) => x
  }

  /** Bytes of one row of the packet, at their place in the chunk. */
  predicate RowStored(g: Geometry, p: Packet, d: seq<uint8>, e: seq<uint8>, n: nat, u: nat)
    requires ValidGeometry(g)
  {
    && n < |p.freqIds| && Start(g, p) >= 0 && |e| == |d|
    && var to := At(At(p.freqIds[n], g.nupfreq, u), NT_PER_CHUNK, Start(g, p));
       var from := At(At(n, g.nupfreq, u), g.ntp, 0);
    && from + g.ntp <= |p.data| && to + g.ntp <= |d|
    && forall i :: 0 <= i < |d| ==> e[i] == if to <= i < to + g.ntp then p.data[from + (i - to)] else d[i]
  }

  /** One more row. */
  lemma RowCopied(g: Geometry, p: Packet, d0: seq<uint8>, d: seq<uint8>, e: seq<uint8>, n: nat, u: nat)
    requires ValidGeometry(g) && Start(g, p) >= 0 && Start(g, p) + g.ntp <= NT_PER_CHUNK && u < g.nupfreq
    requires |d0| == At(At(NFREQ_COARSE, g.nupfreq, 0), NT_PER_CHUNK, 0)
    requires Copied(g, p, d0, d, n, u) && RowStored(g, p, d, e, n, u) && p.freqIds[n] < NFREQ_COARSE
    ensures Copied(g, p, d0, e, n, u + 1)
  {
    hide At, RowOf, ColumnOf, LastChannel;
    var next := u + 1;
    forall i | 0 <= i < |d0| ensures CellCopied(g, p, d0, e, i, n, next) {
      assert CellCopied(g, p, d0, d, i, n, u);
      RowCellCopied(g, p, d0, d, e, i, n, u);
    }
  }

  lemma RowCellCopied(g: Geometry, p: Packet, d0: seq<uint8>, d: seq<uint8>, e: seq<uint8>, i: nat, n: nat, u: nat)
    requires ValidGeometry(g) && Start(g, p) >= 0 && Start(g, p) + g.ntp <= NT_PER_CHUNK && u < g.nupfreq
    requires |d0| == |d| == At(At(NFREQ_COARSE, g.nupfreq, 0), NT_PER_CHUNK, 0) && i < |d0|
    requires CellCopied(g, p, d0, d, i, n, u) && RowStored(g, p, d, e, n, u)
    ensures CellCopied(g, p, d0, e, i, n, u + 1)
  {
    hide At, RowOf, ColumnOf, LastChannel;
    var row, t := RowOf(i, NT_PER_CHUNK), ColumnOf(i, NT_PER_CHUNK);
    AtOfRow(i, At(NFREQ_COARSE, g.nupfreq, 0), NT_PER_CHUNK);
    var id, v := RowOf(row, g.nupfreq), ColumnOf(row, g.nupfreq);
    AtOfRow(row, NFREQ_COARSE, g.nupfreq);
    var t0 := Start(g, p);
    var to := At(At(p.freqIds[n], g.nupfreq, u), NT_PER_CHUNK, t0);
    if p.freqIds[n] == id && u == v && t0 <= t < t0 + g.ntp {
      AtColumn(row, NT_PER_CHUNK, t0, t - t0);
      AtColumn(At(n, g.nupfreq, u), g.ntp, 0, t - t0);
    } else if to <= i < to + g.ntp {
      AtColumn(At(p.freqIds[n], g.nupfreq, u), NT_PER_CHUNK, t0, i - to);
      AtInjective(row, t, At(p.freqIds[n], g.nupfreq, u), t0 + (i - to), NT_PER_CHUNK);
      AtInjective(id, v, p.freqIds[n], u, g.nupfreq);
    }
  }

  lemma NoRowsOfNext(g: Geometry, p: Packet, d0: seq<uint8>, d: seq<uint8>, n: nat)
    requires ValidGeometry(g) && n < |p.freqIds| && Copied(g, p, d0, d, n, g.nupfreq)
    ensures Copied(g, p, d0, d, n + 1, 0)
  {
    hide At, RowOf;
    var next := n + 1;
    forall i | 0 <= i < |d0| ensures CellCopied(g, p, d0, d, i, next, 0) {
      assert CellCopied(g, p, d0, d, i, n, g.nupfreq);
    }
  }

  lemma NothingCopied(g: Geometry, p: Packet, d0: seq<uint8>)
    requires ValidGeometry(g)
    ensures Copied(g, p, d0, d0, 0, 0)
  {
    hide At, RowOf, ColumnOf;
    forall i | 0 <= i < |d0| ensures CellCopied(g, p, d0, d0, i, 0, 0) {
      assert Channel(p, RowOf(RowOf(i, NT_PER_CHUNK), g.nupfreq), ColumnOf(RowOf(i, NT_PER_CHUNK), g.nupfreq), 0, 0) == -1;
    }
  }

  /** Where the scale of a channel goes. */
  function FloatPosition(g: Geometry, p: Packet, id: nat): nat
    requires ValidGeometry(g) && Start(g, p) >= 0
  {
    At(id, NT_PER_CHUNK / g.ntp, Start(g, p) / g.ntp)
  }

  lemma FloatInside(g: Geometry, p: Packet, id: nat)
    requires ValidGeometry(g) && 0 <= Start(g, p) && Start(g, p) + g.ntp <= NT_PER_CHUNK && id < NFREQ_COARSE
    ensures Start(g, p) / g.ntp < NT_PER_CHUNK / g.ntp
    ensures FloatPosition(g, p, id) < At(NFREQ_COARSE, NT_PER_CHUNK / g.ntp, 0)
  {
    CoarsePositive(g);
    QuotientBelow(Start(g, p), g.ntp, NT_PER_CHUNK / g.ntp);
    AtBound(id, NFREQ_COARSE, NT_PER_CHUNK / g.ntp, Start(g, p) / g.ntp);
  }

  lemma FloatStored(g: Geometry, p: Packet, v: seq<Float4>, s0: seq<Float4>, s: seq<Float4>, n: nat)
    requires ValidGeometry(g) && 0 <= Start(g, p) && Start(g, p) + g.ntp <= NT_PER_CHUNK
    requires n < |p.freqIds| && p.freqIds[n] < NFREQ_COARSE && n < |v|
    requires |s0| == At(NFREQ_COARSE, NT_PER_CHUNK / g.ntp, 0) && FloatsCopied(g, p, v, s0, s, n)
    ensures FloatPosition(g, p, p.freqIds[n]) < |s|
    ensures FloatsCopied(g, p, v, s0, s[FloatPosition(g, p, p.freqIds[n]) := v[n]], n + 1)
  {
    hide At, RowOf, ColumnOf, FloatPosition;
    FloatInside(g, p, p.freqIds[n]);
    CoarsePositive(g);
    var to, next := FloatPosition(g, p, p.freqIds[n]), n + 1;
    var e := s[to := v[n]];
    forall i | 0 <= i < |s0| ensures FloatCopied(g, p, v, s0, e, i, next) {
      assert FloatCopied(g, p, v, s0, s, i, n);
      FloatPositionIs(g, p, p.freqIds[n], i);
    }
  }

  /** The position of a scale is its frequency and its packet time. */
  lemma FloatPositionIs(g: Geometry, p: Packet, id: nat, i: nat)
    requires ValidGeometry(g) && 0 <= Start(g, p) && Start(g, p) + g.ntp <= NT_PER_CHUNK
    requires i < At(NFREQ_COARSE, NT_PER_CHUNK / g.ntp, 0)
    ensures NT_PER_CHUNK / g.ntp > 0
    ensures i == FloatPosition(g, p, id)
            <==> RowOf(i, NT_PER_CHUNK / g.ntp) == id && ColumnOf(i, NT_PER_CHUNK / g.ntp) == Start(g, p) / g.ntp
  {
    hide At, RowOf, ColumnOf;
    CoarsePositive(g);
    var w := NT_PER_CHUNK / g.ntp;
    QuotientBelow(Start(g, p), g.ntp, w);
    AtOfRow(i, NFREQ_COARSE, w);
    if i == FloatPosition(g, p, id) {
      AtInjective(RowOf(i, w), ColumnOf(i, w), id, Start(g, p) / g.ntp, w);
    }
  }

  lemma NoFloatsCopied(g: Geometry, p: Packet, v: seq<Float4>, s0: seq<Float4>)
    requires ValidGeometry(g)
    ensures FloatsCopied(g, p, v, s0, s0, 0)
  {
    hide RowOf, ColumnOf;
    CoarsePositive(g);
    forall i | 0 <= i < |s0| ensures FloatCopied(g, p, v, s0, s0, i, 0) {
      assert LastChannel(p.freqIds, RowOf(i, NT_PER_CHUNK / g.ntp), 0) == -1;
    }
  }

  /** After all channels, the arrays are the old ones with the packet applied. */
  lemma AllCopied(g: Geometry, p: Packet, d0: seq<uint8>, d: seq<uint8>, s0: seq<Float4>, s: seq<Float4>, o0: seq<Float4>, o: seq<Float4>)
    requires ValidGeometry(g)
    requires Copied(g, p, d0, d, |p.freqIds|, 0)
    requires FloatsCopied(g, p, p.scales, s0, s, |p.freqIds|) && FloatsCopied(g, p, p.offsets, o0, o, |p.freqIds|)
    ensures d == Apply(d0, p, DataPatch(g)) && s == Apply(s0, p, ScalePatch(g)) && o == Apply(o0, p, OffsetPatch(g))
  {
    hide CellAt, FloatCellAt;
    forall i | 0 <= i < |d0| ensures d[i] == Apply(d0, p, DataPatch(g))[i] {
      assert CellCopied(g, p, d0, d, i, |p.freqIds|, 0);
    }
    forall i | 0 <= i < |s0| ensures s[i] == Apply(s0, p, ScalePatch(g))[i] {
      assert FloatCopied(g, p, p.scales, s0, s, i, |p.freqIds|);
    }
    forall i | 0 <= i < |o0| ensures o[i] == Apply(o0, p, OffsetPatch(g))[i] {
      assert FloatCopied(g, p, p.offsets, o0, o, i, |p.freqIds|);
    }
  }

  class AssembledChunk {
    const g: Geometry
    const data: array<uint8>
    const scales: array<Float4>
    const offsets: array<Float4>

    /** A new chunk is all zeros. */
    constructor (geometry: Geometry)
      requires ValidGeometry(geometry)
      ensures Valid() && g == geometry && fresh(data) && fresh(scales) && fresh(offsets)
      ensures forall i :: 0 <= i < data.Length ==> data[i] == 0
    {
      g := geometry;
      var ndata := At(At(NFREQ_COARSE, geometry.nupfreq, 0), NT_PER_CHUNK, 0);
      var nscales := At(NFREQ_COARSE, NT_PER_CHUNK / geometry.ntp, 0);
      data := new uint8[ndata](_ => 0);
      scales := new Float4[nscales](_ => [0, 0, 0, 0]);
      offsets := new Float4[nscales](_ => [0, 0, 0, 0]);
    }

    ghost predicate Valid() {
      && ValidGeometry(g)
      && data.Length == At(At(NFREQ_COARSE, g.nupfreq, 0), NT_PER_CHUNK, 0)
      && scales.Length == offsets.Length == At(NFREQ_COARSE, NT_PER_CHUNK / g.ntp, 0)
      && scales != offsets
    }

    /** One row: `ntp` bytes. */
    method CopyRow(p: Packet, n: nat, u: nat)
      requires Valid() && Consistent(p) && Belongs(g, p) && FreqsInRange(p) && n < p.h.nfreq && u < g.nupfreq
      modifies data
      ensures RowStored(g, p, old(data[..]), data[..], n, u)
    {
      hide At;
      RowsInside(g, p, n, u);
      var to := At(At(p.freqIds[n], g.nupfreq, u), NT_PER_CHUNK, Start(g, p));
      var from := At(At(n, g.nupfreq, u), g.ntp, 0);
      forall i | to <= i < to + g.ntp { data[i] := p.data[from + (i - to)]; }
    }

    /** The reference: a packet that does not belong here is refused and changes nothing. */
    method AddPacket(p: Packet) returns (ok: bool)
      requires Valid() && Consistent(p) && FreqsInRange(p)
      modifies data, scales, offsets
      ensures ok <==> Belongs(g, p)
      ensures ok <==>
                && p.h.nbeams == 1 && p.h.nupfreq == g.nupfreq && p.h.ntsamp == g.ntp && p.h.fpgaPerSample == g.fps
                && |p.beamIds| == 1 && p.beamIds[0] == g.beamId
                && g.fps * g.ntp > 0 && p.h.fpgaCount % (g.fps * g.ntp) == 0
                && g.isample <= p.h.fpgaCount / g.fps && p.h.fpgaCount / g.fps + g.ntp <= g.isample + 1024
      ensures ok ==> data[..] == Apply(old(data[..]), p, DataPatch(g))
      ensures ok ==> scales[..] == Apply(old(scales[..]), p, ScalePatch(g))
      ensures ok ==> offsets[..] == Apply(old(offsets[..]), p, OffsetPatch(g))
      ensures !ok ==> data[..] == old(data[..]) && scales[..] == old(scales[..]) && offsets[..] == old(offsets[..])
    {
      hide At, Copied, FloatsCopied, DataPatch, ScalePatch, OffsetPatch, FloatPosition;
      if !Belongs(g, p) { return false; }
      ghost var d0, s0, o0 := data[..], scales[..], offsets[..];
      OneBeamPerPacket(p);
      NothingCopied(g, p, d0);
      NoFloatsCopied(g, p, p.scales, s0);
      NoFloatsCopied(g, p, p.offsets, o0);
      for f := 0 to p.h.nfreq
        invariant Copied(g, p, d0, data[..], f, 0)
        invariant FloatsCopied(g, p, p.scales, s0, scales[..], f) && FloatsCopied(g, p, p.offsets, o0, offsets[..], f)
      {
        CopyFloats(p, f, s0, o0);
        for u := 0 to g.nupfreq
          invariant Copied(g, p, d0, data[..], f, u)
          invariant FloatsCopied(g, p, p.scales, s0, scales[..], f + 1) && FloatsCopied(g, p, p.offsets, o0, offsets[..], f + 1)
        {
          ghost var d := data[..];
          CopyRow(p, f, u);
          RowCopied(g, p, d0, d, data[..], f, u);
        }
        NoRowsOfNext(g, p, d0, data[..], f);
      }
      AllCopied(g, p, d0, data[..], s0, scales[..], o0, offsets[..]);
      ok := true;
    }

    method CopyFloats(p: Packet, f: nat, ghost s0: seq<Float4>, ghost o0: seq<Float4>)
      requires Valid() && Consistent(p) && Belongs(g, p) && FreqsInRange(p) && f < p.h.nfreq
      requires |s0| == scales.Length && |o0| == offsets.Length
      requires FloatsCopied(g, p, p.scales, s0, scales[..], f) && FloatsCopied(g, p, p.offsets, o0, offsets[..], f)
      modifies scales, offsets
      ensures FloatsCopied(g, p, p.scales, s0, scales[..], f + 1) && FloatsCopied(g, p, p.offsets, o0, offsets[..], f + 1)
    {
      hide At, FloatsCopied, FloatPosition;
      OneBeamPerPacket(p);
      FloatStored(g, p, p.scales, s0, scales[..], f);
      FloatStored(g, p, p.offsets, o0, offsets[..], f);
      var to := FloatPosition(g, p, p.freqIds[f]);
      ghost var s, o := scales[..], offsets[..];
      scales[to] := p.scales[f];
      offsets[to] := p.offsets[f];
      assert scales[..] == s[to := p.scales[f]] && offsets[..] == o[to := p.offsets[f]];
    }

    /** The vectorized copy takes packets of sixteen samples, two rows at a time, and does not repeat the checks. */
    method FastAddPacket(p: Packet)
      requires Valid() && Consistent(p) && FreqsInRange(p) && Belongs(g, p) && g.ntp == 16 && g.nupfreq % 2 == 0
      modifies data, scales, offsets
      ensures data[..] == Apply(old(data[..]), p, DataPatch(g))
      ensures scales[..] == Apply(old(scales[..]), p, ScalePatch(g))
      ensures offsets[..] == Apply(old(offsets[..]), p, OffsetPatch(g))
    {
      hide At, Copied, FloatsCopied, DataPatch, ScalePatch, OffsetPatch, FloatPosition;
      ghost var d0, s0, o0 := data[..], scales[..], offsets[..];
      OneBeamPerPacket(p);
      NothingCopied(g, p, d0);
      NoFloatsCopied(g, p, p.scales, s0);
      NoFloatsCopied(g, p, p.offsets, o0);
      for f := 0 to p.h.nfreq
        invariant Copied(g, p, d0, data[..], f, 0)
        invariant FloatsCopied(g, p, p.scales, s0, scales[..], f) && FloatsCopied(g, p, p.offsets, o0, offsets[..], f)
      {
        CopyFloats(p, f, s0, o0);
        var u := 0;
        while u < g.nupfreq
          invariant u <= g.nupfreq && u % 2 == 0 && Copied(g, p, d0, data[..], f, u)
          invariant FloatsCopied(g, p, p.scales, s0, scales[..], f + 1) && FloatsCopied(g, p, p.offsets, o0, offsets[..], f + 1)
        {
          ghost var d := data[..];
          CopyRow(p, f, u);
          RowCopied(g, p, d0, d, data[..], f, u);
          d := data[..];
          CopyRow(p, f, u + 1);
          RowCopied(g, p, d0, d, data[..], f, u + 1);
          u := u + 2;
        }
        NoRowsOfNext(g, p, d0, data[..], f);
      }
      AllCopied(g, p, d0, data[..], s0, scales[..], o0, offsets[..]);
    }
  }

  lemma OneBeamPerPacket(p: Packet)
    requires Consistent(p) && p.h.nbeams == 1
    ensures |p.scales| == |p.offsets| == p.h.nfreq && |p.data| == At(At(p.h.nfreq, p.h.nupfreq, 0), p.h.ntsamp, 0)
  {
    assert At(1, p.h.nfreq, 0) == p.h.nfreq + At(0, p.h.nfreq, 0);
  }

  lemma RowsInside(g: Geometry, p: Packet, n: nat, u: nat)
    requires ValidGeometry(g) && Consistent(p) && Belongs(g, p) && FreqsInRange(p) && n < p.h.nfreq && u < g.nupfreq
    ensures At(At(p.freqIds[n], g.nupfreq, u), NT_PER_CHUNK, Start(g, p)) + g.ntp
            <= At(At(NFREQ_COARSE, g.nupfreq, 0), NT_PER_CHUNK, 0)
    ensures At(At(n, g.nupfreq, u), g.ntp, 0) + g.ntp <= |p.data|
  {
    hide At;
    OneBeamPerPacket(p);
    var t0 := Start(g, p);
    var row := At(p.freqIds[n], g.nupfreq, u);
    AtBound(p.freqIds[n], NFREQ_COARSE, g.nupfreq, u);
    AtBound(row, At(NFREQ_COARSE, g.nupfreq, 0), NT_PER_CHUNK, t0 + g.ntp - 1);
    AtColumn(row, NT_PER_CHUNK, t0, g.ntp - 1);
    AtBound(n, p.h.nfreq, g.nupfreq, u);
    var from := At(n, g.nupfreq, u);
    AtBound(from, At(p.h.nfreq, g.nupfreq, 0), g.ntp, g.ntp - 1);
    AtColumn(from, g.ntp, 0, g.ntp - 1);
  }
}
