/**
  What is in the chunks that reach the downstream thread: the ring buffer knows which packets a chunk was made of, the
  chunk knows what a packet writes.  Together, every cell of a queued chunk is what the last packet that covers it has
  written there, and zero if there is none.
*/
module QueuedCells {
  import opened BeamAssembly
  import opened BitMatrix
  import opened C = ChunkAssembly
  import opened ChunkDelivery
  import opened EncodeBound
  import opened Options
  import opened PacketFormat
  import M = RingMachine
  import opened RingTheorems
  import T = Telescope
  import P = UdpPipeline

  /** The parts with the given numbers. */
  function Chosen(parts: seq<Packet>, hits: seq<nat>): (r: seq<Packet>)
    requires forall k :: 0 <= k < |hits| ==> hits[k] < |parts|
    ensures |r| == |hits| && forall k :: 0 <= k < |hits| ==> r[k] == parts[hits[k]]
  {
    seq(|hits|, k requires 0 <= k < |hits| => parts[hits[k]])
  }

  predicate Increasing(h: seq<nat>) {
    forall j, k :: 0 <= j < k < |h| ==> h[j] < h[k]
  }

  /** The hits of a chunk are the packets that were assembled into it, in the order in which they came. */
  lemma {:induction false} HitsAreInOrder(log: seq<M.Event>, ichunk: nat)
    ensures forall n :: n in M.HitsFor(log, ichunk) <==> 0 <= n < |log| && log[n].hit && log[n].ichunk == ichunk
    ensures Increasing(M.HitsFor(log, ichunk))
  {
    if log != [] {
      HitsAreInOrder(log[..|log| - 1], ichunk);
      var front := M.HitsFor(log[..|log| - 1], ichunk);
      forall k | 0 <= k < |front| ensures front[k] < |log| - 1 {
        assert front[k] in front;
      }
      var h := M.HitsFor(log, ichunk);
      assert h == front || h == front + [|log| - 1];
      forall j, k | 0 <= j < k < |h| ensures h[j] < h[k] {
        assert h[j] == front[j];
        if k < |front| { assert h[k] == front[k]; }
      }
    }
  }

  /** v is what the last of the items that overwrite position i has put there, or the initial value if there is none. */
  ghost predicate LastValue<V>(s: seq<V>, ps: seq<Packet>, f: (Packet, nat) -> Option<V>, i: nat, v: V)
    requires i < |s|
  {
    || ((forall k :: 0 <= k < |ps| ==> f(ps[k], i).None?) && v == s[i])
    || (exists k :: 0 <= k < |ps| && f(ps[k], i) == Some(v) && forall j :: k < j < |ps| ==> f(ps[j], i).None?)
  }

  lemma {:induction false} LastOverwrites<V>(s: seq<V>, ps: seq<Packet>, f: (Packet, nat) -> Option<V>, i: nat, n: nat)
    requires i < |s| && n <= |ps| && forall j :: n <= j < |ps| ==> f(ps[j], i).None?
    ensures LastValue(s, ps, f, i, ApplyAll(s, ps, f)[i])
    decreases n
  {
    if n == 0 {
      NotOverwritten(s, ps, f, i);
    } else if f(ps[n - 1], i).Some? {
      LastWins(s, ps, f, i, n - 1);
      assert f(ps[n - 1], i) == Some(ApplyAll(s, ps, f)[i]);
    } else {
      LastOverwrites(s, ps, f, i, n - 1);
    }
  }

  /** A new chunk. */
  predicate Zeros(g: Geometry, a: Arrays)
    requires ValidGeometry(g)
  {
    && ChunkArrays(g, a)
    && (forall i :: 0 <= i < |a.data| ==> a.data[i] == 0)
    && (forall i :: 0 <= i < |a.scales| ==> a.scales[i] == [0, 0, 0, 0])
    && (forall i :: 0 <= i < |a.offsets| ==> a.offsets[i] == [0, 0, 0, 0])
  }

  /** All cells of the chunk after its hits have been added. */
  ghost predicate CellsAreLast(g: Geometry, zero: Arrays, hits: seq<Packet>)
    requires ValidGeometry(g) && ChunkArrays(g, zero)
  {
    var a := AfterAll(g, zero, hits);
    && (forall i :: 0 <= i < |a.data| ==> LastValue(zero.data, hits, DataPatch(g), i, a.data[i]))
    && (forall i :: 0 <= i < |a.scales| ==> LastValue(zero.scales, hits, ScalePatch(g), i, a.scales[i]))
    && (forall i :: 0 <= i < |a.offsets| ==> LastValue(zero.offsets, hits, OffsetPatch(g), i, a.offsets[i]))
  }

  lemma CellsFollowHits(g: Geometry, zero: Arrays, hits: seq<Packet>)
    requires ValidGeometry(g) && ChunkArrays(g, zero)
    ensures CellsAreLast(g, zero, hits)
  {
    hide DataPatch, ScalePatch, OffsetPatch, LastValue, ApplyAll;
    var a := AfterAll(g, zero, hits);
    forall i | 0 <= i < |a.data| ensures LastValue(zero.data, hits, DataPatch(g), i, a.data[i]) {
      LastOverwrites(zero.data, hits, DataPatch(g), i, |hits|);
    }
    forall i | 0 <= i < |a.scales| ensures LastValue(zero.scales, hits, ScalePatch(g), i, a.scales[i]) {
      LastOverwrites(zero.scales, hits, ScalePatch(g), i, |hits|);
    }
    forall i | 0 <= i < |a.offsets| ensures LastValue(zero.offsets, hits, OffsetPatch(g), i, a.offsets[i]) {
      LastOverwrites(zero.offsets, hits, OffsetPatch(g), i, |hits|);
    }
  }

  /** A chunk of original time resolution that the ring buffer holds or has delivered. */
  predicate IsQueued(r: M.State, c: T.Chunk) {
    r.ring.levels != [] && (c in r.ring.levels[0] || c in r.ds.delivered)
  }

  lemma QueuedContent(cfg: M.Config, r: M.State, truth: nat -> T.Mask, c: T.Chunk)
    requires GoodConfig(cfg, r, truth) && IsQueued(r, c)
    ensures c.content == T.Raw(M.HitsFor(r.asm.log, c.ichunk))
  {
    ReachableInv(cfg, r, truth);
    hide M.HitsFor, M.WindowInv, Reachable, M.CursorInv, M.LevelsInv, M.RetrievedInv, DeliveryAccount;
    if c in r.ring.levels[0] {
      HeldContent(r.ring, r.asm, c);
    } else {
      assert r.asm.queued == |r.ring.history|;
      DeliveryAccountHolds(cfg, r, truth);
      DeliveredContent(r, c);
    }
  }

  lemma HeldContent(r: M.Ring, a: M.Assembly, c: T.Chunk)
    requires M.LevelZeroInv(r) && M.LogInv(r, a) && c in r.levels[0]
    ensures c.content == T.Raw(M.HitsFor(a.log, c.ichunk))
  {
    var k :| 0 <= k < |r.levels[0]| && r.levels[0][k] == c;
    assert r.history[r.pos0 + k] == M.HitsFor(a.log, r.first + (r.pos0 + k));
  }

  lemma DeliveredContent(r: M.State, c: T.Chunk)
    requires r.ring.levels != [] && DeliveryAccount(r) && c in r.ds.delivered
    ensures c.content == T.Raw(M.HitsFor(r.asm.log, c.ichunk))
  {
    var i :| 0 <= i < |r.ds.delivered| && r.ds.delivered[i] == c;
  }

  ghost predicate GoodConfig(cfg: M.Config, r: M.State, truth: nat -> T.Mask) {
    M.GoodConfig(cfg) && M.TruthShaped(truth, cfg.nrf) && Reachable(cfg, r, truth)
  }

  /** Every hit of a chunk of beam ix is a part of that beam, and the chunk takes it. */
  predicate AllBelong(sh: Shape, ix: nat, ichunk: nat, hits: seq<Packet>)
    requires ix < |sh.beamIds| && ValidGeometry(GeometryOf(sh, ix, ichunk))
  {
    forall k :: 0 <= k < |hits| ==> PartOfBeam(sh, ix, hits[k]) && Belongs(GeometryOf(sh, ix, ichunk), hits[k])
  }

  /** What a chunk of beam ix is made of, and what is in it. */
  ghost predicate MadeOf(sh: Shape, ix: nat, c: T.Chunk, parts: seq<Packet>, log: seq<M.Event>, zero: Arrays)
    requires ix < |sh.beamIds| && ValidGeometry(GeometryOf(sh, ix, c.ichunk)) && ChunkArrays(GeometryOf(sh, ix, c.ichunk), zero)
  {
    && c.content.Raw? && (forall n :: n in c.content.hits <==> 0 <= n < |log| && log[n].hit && log[n].ichunk == c.ichunk)
    && Increasing(c.content.hits) && (forall k :: 0 <= k < |c.content.hits| ==> c.content.hits[k] < |parts|)
    && AllBelong(sh, ix, c.ichunk, Chosen(parts, c.content.hits))
    && CellsAreLast(GeometryOf(sh, ix, c.ichunk), zero, Chosen(parts, c.content.hits))
  }

  /**
    In every run of the two receiving threads and their readers: a chunk of beam ix that is queued or has been delivered
    was made of exactly the parts that hit it, in order of arrival; all of them belong to it; and every cell is that of
    the last of them that covers it, or zero.
  */
  lemma QueuedChunkIsLastHits(cfg: P.Config, truths: P.Truths, actions: seq<P.Action>, ix: nat, c: T.Chunk, zero: Arrays)
    requires P.ValidConfig(cfg) && P.ValidTruths(cfg, truths) && ix < |truths|
    requires var s := P.Run(cfg, truths, actions);
             s.asm.work != P.Crashed && ix < |s.asm.beams| && IsQueued(s.asm.beams[ix], c)
    requires ValidGeometry(GeometryOf(cfg.shape, ix, c.ichunk)) && Zeros(GeometryOf(cfg.shape, ix, c.ichunk), zero)
    ensures var s := P.Run(cfg, truths, actions);
            && ix < |s.asm.parts|
            && MadeOf(cfg.shape, ix, c, s.asm.parts[ix], s.asm.beams[ix].asm.log, zero)
  {
    P.RunKeeps(cfg, truths, actions);
    var s := P.Run(cfg, truths, actions);
    hide P.Run, P.Books, P.Flags, P.InHand, Zeros, MadeOf, P.PartsLogged, IsQueued;
    assert P.BeamInv(cfg, truths, s.asm, ix);
    ChunkIsLastHits(cfg.shape, ix, s.asm.beams[ix], truths[ix], s.asm.parts[ix], c, zero);
  }

  lemma ChunkIsLastHits(sh: Shape, ix: nat, r: M.State, truth: nat -> T.Mask, parts: seq<Packet>, c: T.Chunk, zero: Arrays)
    requires ValidShape(sh) && ix < |sh.beamIds| && GoodConfig(sh.rings, r, truth) && P.PartsLogged(sh, ix, r, parts)
    requires IsQueued(r, c)
    requires ValidGeometry(GeometryOf(sh, ix, c.ichunk)) && Zeros(GeometryOf(sh, ix, c.ichunk), zero)
    ensures MadeOf(sh, ix, c, parts, r.asm.log, zero)
  {
    QueuedContent(sh.rings, r, truth, c);
    var hits := M.HitsFor(r.asm.log, c.ichunk);
    HitsAreInOrder(r.asm.log, c.ichunk);
    hide M.HitsFor, IsQueued, GoodConfig, PartOfBeam, Belongs, ChunkOf, GeometryOf, CellsAreLast;
    forall k | 0 <= k < |hits|
      ensures hits[k] < |parts| && PartOfBeam(sh, ix, parts[hits[k]]) && Belongs(GeometryOf(sh, ix, c.ichunk), parts[hits[k]])
    {
      assert hits[k] in hits;
      PartBelongsToChunk(sh, ix, parts[hits[k]], c.ichunk);
    }
    CellsFollowHits(GeometryOf(sh, ix, c.ichunk), zero, Chosen(parts, hits));
  }
}
