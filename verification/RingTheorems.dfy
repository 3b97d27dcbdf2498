/**
  What every run of the ring-buffer machine guarantees: each property as a predicate on states, why the invariant
  implies it, and one theorem at the end that puts them together for every interleaving.
*/
module RingTheorems {
  import opened Options
  import opened RingMachine
  import opened Telescope
  import opened TelescopeLaws

  // ------------------------------------------------------------------------------------------------
  // The runtime self-check

  /** The assertions the program makes about its rings after every push. */
  predicate SelfCheck(cfg: Config, s: State) {
    var levels := s.ring.levels;
    && |levels| == |cfg.caps| > 0
    && (forall l :: 0 <= l < |levels| ==> LevelChecked(cfg, levels, l))
    && 0 < cfg.bufsize <= cfg.caps[0]
    && s.ring.pos0 <= s.ds.down <= s.ring.pos0 + |levels[0]| <= s.ds.down + cfg.bufsize
  }

  predicate LevelChecked(cfg: Config, levels: seq<seq<Chunk>>, l: nat)
    requires l < |levels| == |cfg.caps|
  {
    && cfg.caps[l] >= 2 && |levels[l]| <= cfg.caps[l]
    && (forall i :: 0 <= i < |levels[l]| ==> levels[l][i].binning == Pow2(l))
    && (l > 0 && cfg.nrf > 0 ==> forall i :: 0 <= i < |levels[l]| ==> levels[l][i].mask.Some?)
    && (forall i :: 0 <= i < |levels[l]| - 1 ==> levels[l][i + 1].ichunk == levels[l][i].ichunk + levels[l][i].binning)
    && (l > 0 && levels[l] != [] ==>
          && levels[l - 1] != []
          && levels[l - 1][0].ichunk == levels[l][|levels[l]| - 1].ichunk + levels[l][|levels[l]| - 1].binning)
  }

  /** Level l of a tiled span is itself tiled, and so is everything older. */
  lemma {:induction false} LevelTiles(levels: seq<seq<Chunk>>, l: nat, lo: nat, hi: nat) returns (a: nat, b: nat)
    requires l < |levels| && Tiles(Span(levels), lo, hi)
    ensures lo <= a <= b <= hi
    ensures Tiles(Span(levels[l + 1..]), lo, a) && Tiles(levels[l], a, b)
    ensures l > 0 ==> Tiles(Span(levels[l..]), lo, b)
    decreases l
  {
    assert levels == [levels[0]] + levels[1..];
    SpanCons(levels[0], levels[1..]);
    var mid := TilesSplit(Span(levels[1..]), levels[0], lo, hi);
    if l == 0 {
      a, b := mid, hi;
    } else {
      a, b := LevelTiles(levels[1..], l - 1, lo, mid);
      assert levels[1..][l..] == levels[l + 1..];
      if l > 1 {
        assert levels[1..][l - 1..] == levels[l..];
      } else {
        assert levels[1..][0..] == levels[1..];
        assert levels[l..] == levels[1..];
        var c := TilesSplit(Span(levels[1..][1..]), levels[1..][0], lo, mid);
        TilesUnique(Span(levels[1..][1..]), lo, a, c);
        TilesUnique(levels[1..][0], a, b, mid);
      }
    }
  }

  lemma {:induction false} TilesUnique(a: seq<Chunk>, lo: nat, x: nat, y: nat)
    requires Tiles(a, lo, x) && Tiles(a, lo, y)
    ensures x == y
  {
    if a != [] { TilesUnique(a[1..], lo + a[0].binning, x, y); }
  }

  lemma LevelIsContiguous(cfg: Config, r: Ring, truth: nat -> Mask, l: nat)
    requires LevelsInv(cfg, r, truth) && l < |r.levels|
    ensures forall i :: 0 <= i < |r.levels[l]| ==> r.levels[l][i].binning == Pow2(l)
    ensures forall i :: 0 <= i < |r.levels[l]| - 1 ==>
                          r.levels[l][i + 1].ichunk == r.levels[l][i].ichunk + r.levels[l][i].binning
  {
    ShapeBinning(r.levels, cfg.caps, 0, l);
    var a, b := LevelTiles(r.levels, l, r.first + r.evicted, Head(r));
    TilesIsContiguous(r.levels[l], a, b);
  }

  lemma LevelMeetsAbove(cfg: Config, r: Ring, truth: nat -> Mask, l: nat)
    requires LevelsInv(cfg, r, truth) && 0 < l < |r.levels| && r.levels[l] != []
    ensures r.levels[l - 1] != []
    ensures r.levels[l - 1][0].ichunk == r.levels[l][|r.levels[l]| - 1].ichunk + r.levels[l][|r.levels[l]| - 1].binning
  {
    ShapeAll(r.levels, cfg.caps, 0);
    assert r.levels[l - 1 + 1] != [];
    Junction(r.levels, l, r.first + r.evicted, Head(r));
  }

  lemma LevelCheckedHolds(cfg: Config, r: Ring, truth: nat -> Mask, l: nat)
    requires LevelsInv(cfg, r, truth) && l < |r.levels|
    ensures l < |cfg.caps| == |r.levels| && LevelChecked(cfg, r.levels, l)
  {
    ShapeAll(r.levels, cfg.caps, 0);
    LevelIsContiguous(cfg, r, truth, l);
    MasksMeanAt(r.levels, 0, truth, cfg.nrf, l);
    if l > 0 && r.levels[l] != [] { LevelMeetsAbove(cfg, r, truth, l); }
  }

  /** All the assertions of the self-check hold: it never throws. */
  lemma SelfCheckHolds(cfg: Config, s: State, truth: nat -> Mask)
    requires RingInv(cfg, s.ring, truth) && CursorInv(cfg, s.ring, s.ds)
    ensures SelfCheck(cfg, s)
  {
    forall l: nat | l < |s.ring.levels| ensures LevelChecked(cfg, s.ring.levels, l) {
      LevelCheckedHolds(cfg, s.ring, truth, l);
    }
  }

  lemma Junction(levels: seq<seq<Chunk>>, l: nat, lo: nat, hi: nat)
    requires 0 < l < |levels| && levels[l] != [] && levels[l - 1] != [] && Tiles(Span(levels), lo, hi)
    ensures levels[l - 1][0].ichunk == levels[l][|levels[l]| - 1].ichunk + levels[l][|levels[l]| - 1].binning
  {
    var a, b := LevelTiles(levels, l - 1, lo, hi);
    var c, d := LevelTiles(levels, l, lo, hi);
    TilesUnique(Span(levels[l..]), lo, a, d);
    TilesIsContiguous(levels[l - 1], a, b);
    TilesIsContiguous(levels[l], c, d);
  }

  // ------------------------------------------------------------------------------------------------
  // One gap-free span, made of what was pushed

  /**
    Read deepest level first, the buffer is one contiguous run of chunks ending at the last pushed chunk; it is
    missing only the `evicted` oldest ones, and once anything is missing it still spans at least the configured
    minimum.
  */
  predicate OneSpan(cfg: Config, r: Ring)
    requires |cfg.caps| > 0
  {
    var span := Span(r.levels);
    && (forall i :: 0 <= i < |span| - 1 ==> span[i + 1].ichunk == span[i].ichunk + span[i].binning)
    && (span != [] ==> span[0].ichunk == r.first + r.evicted)
    && (span != [] ==> span[|span| - 1].ichunk + span[|span| - 1].binning == r.first + |r.history|)
    && (r.evicted > 0 ==> |r.history| - r.evicted >= Floor(cfg.caps, 0))
    && |r.history| - r.evicted == Total(r.levels, 0)
  }

  lemma BufferIsOneSpan(cfg: Config, r: Ring, truth: nat -> Mask)
    requires GoodConfig(cfg) && LevelsInv(cfg, r, truth)
    ensures OneSpan(cfg, r)
  {
    hide Tiles, Shape, MasksMean, AllLeaves, Total, Floor, Span;
    TilesIsContiguous(Span(r.levels), r.first + r.evicted, Head(r));
    SpanLength(r.levels, cfg.caps, 0, r.first + r.evicted, Head(r));
    if r.evicted > 0 { FullBottomKeepsHistory(r.levels, cfg.caps, 0); }
  }

  /** Position i of a tiled span holds the leaves at its own offset. */
  lemma {:induction false} LeavesAt(chunks: seq<Chunk>, lo: nat, hi: nat, i: nat)
    requires Tiles(chunks, lo, hi) && i < |chunks|
    requires forall k :: 0 <= k < |chunks| ==> |Leaves(chunks[k].content)| == chunks[k].binning
    ensures lo <= chunks[i].ichunk && chunks[i].ichunk + chunks[i].binning - lo <= |AllLeaves(chunks)|
    ensures Leaves(chunks[i].content) ==
            AllLeaves(chunks)[chunks[i].ichunk - lo..chunks[i].ichunk + chunks[i].binning - lo]
  {
    var head, tail := Leaves(chunks[0].content), AllLeaves(chunks[1..]);
    assert AllLeaves(chunks) == head + tail;
    if i > 0 {
      var n := chunks[0].binning;
      LeavesAt(chunks[1..], lo + n, hi, i - 1);
      var p, q := chunks[i].ichunk - lo - n, chunks[i].ichunk + chunks[i].binning - lo - n;
      assert chunks[1..][i - 1] == chunks[i];
      assert tail[p..q] == (head + tail)[n + p..n + q];
    } else {
      assert head == (head + tail)[0..|head|];
    }
  }

  lemma SpanMeans(levels: seq<seq<Chunk>>, ids: nat, truth: nat -> Mask, nrf: nat)
    requires MasksMean(levels, ids, truth, nrf)
    ensures forall i :: 0 <= i < |Span(levels)| ==> Means(Span(levels)[i], truth, nrf)
  {
    if levels != [] {
      SpanMeans(levels[1..], ids + 1, truth, nrf);
      forall i | 0 <= i < |Span(levels)| ensures Means(Span(levels)[i], truth, nrf) {
        var below := Span(levels[1..]);
        if i >= |below| { assert Span(levels)[i] == levels[0][i - |below|]; }
      }
    }
  }

  /**
    Every chunk in the buffer, at whatever level, was made of exactly the packets that hit the chunks it covers:
    its j-th leaf lists, in order of arrival, the packets assembled into chunk (ichunk + j).
  */
  predicate MadeOfHits(c: Chunk, log: seq<Event>) {
    |Leaves(c.content)| == c.binning && forall j :: 0 <= j < c.binning ==> Leaves(c.content)[j] == HitsFor(log, c.ichunk + j)
  }

  lemma ContentsAreTheHits(cfg: Config, r: Ring, a: Assembly, truth: nat -> Mask, i: nat)
    requires LevelsInv(cfg, r, truth) && LogInv(r, a) && i < |Span(r.levels)|
    ensures MadeOfHits(Span(r.levels)[i], a.log)
  {
    SpanMeans(r.levels, 0, truth, cfg.nrf);
    SpanIsHistory(r, a, Span(r.levels), i);
  }

  lemma SpanIsHistory(r: Ring, a: Assembly, span: seq<Chunk>, i: nat)
    requires r.evicted <= |r.history| && LogInv(r, a) && i < |span|
    requires Tiles(span, r.first + r.evicted, Head(r)) && AllLeaves(span) == r.history[r.evicted..]
    requires forall k :: 0 <= k < |span| ==> |Leaves(span[k].content)| == span[k].binning
    ensures MadeOfHits(span[i], a.log)
  {
    hide Tiles, Leaves, AllLeaves, HitsFor, LogInv;
    var lo := r.first + r.evicted;
    LeavesAt(span, lo, Head(r), i);
    SliceOfHistory(r, a, lo, span[i].ichunk, span[i].binning, Leaves(span[i].content));
  }

  lemma SliceOfHistory(r: Ring, a: Assembly, lo: nat, from: nat, n: nat, leaves: seq<seq<nat>>)
    requires r.evicted <= |r.history| && LogInv(r, a)
    requires lo == r.first + r.evicted <= from && from + n <= Head(r)
    requires leaves == r.history[r.evicted..][from - lo..from + n - lo]
    ensures |leaves| == n && forall j :: 0 <= j < n ==> leaves[j] == HitsFor(a.log, from + j)
  {
    forall j | 0 <= j < n ensures leaves[j] == HitsFor(a.log, from + j) {
      var k := from + j - r.first;
      assert leaves[j] == r.history[k];
      assert r.history[k] == HitsFor(a.log, r.first + k);
    }
  }

  /** Every mask bit of a level-l chunk is the AND of the 2^l level-0 bits it covers. */
  predicate MasksAreAnds(cfg: Config, r: Ring, truth: nat -> Mask) {
    forall l, i :: 0 <= l < |r.levels| && 0 <= i < |r.levels[l]| ==>
      var c := r.levels[l][i];
      && (cfg.nrf > 0 && l > 0 ==> c.mask.Some?)
      && (c.mask.Some? ==> MaskShape(c.mask.value, cfg.nrf))
      && (c.mask.Some? ==>
            forall f, b :: 0 <= f < cfg.nrf && 0 <= b < NT ==>
              c.mask.value[f][b] == AllSet(truth, f, c.ichunk * NT + b * Pow2(l), c.ichunk * NT + b * Pow2(l) + Pow2(l)))
  }

  lemma MasksAreAndsOf(cfg: Config, r: Ring, truth: nat -> Mask)
    requires LevelsInv(cfg, r, truth)
    ensures MasksAreAnds(cfg, r, truth)
  {
    forall l, i | 0 <= l < |r.levels| && 0 <= i < |r.levels[l]|
      ensures r.levels[l][i].binning == Pow2(l) && Means(r.levels[l][i], truth, cfg.nrf)
      ensures cfg.nrf > 0 && l > 0 ==> r.levels[l][i].mask.Some?
    {
      ShapeBinning(r.levels, cfg.caps, 0, l);
      MasksMeanAt(r.levels, 0, truth, cfg.nrf, l);
    }
  }

  // ------------------------------------------------------------------------------------------------
  // Deliveries

  lemma {:induction false} TakenSorted(fates: seq<Fate>)
    ensures forall i :: 0 <= i < |Taken(fates)| ==> Taken(fates)[i] < |fates| && fates[Taken(fates)[i]] == Delivered
    ensures forall i, j :: 0 <= i < j < |Taken(fates)| ==> Taken(fates)[i] < Taken(fates)[j]
    ensures |Taken(fates)| + CountDropped(fates) == |fates|
  {
    if fates != [] { TakenSorted(fates[..|fates| - 1]); }
  }

  lemma {:induction false} TakenAll(fates: seq<Fate>, p: nat)
    requires p < |fates| && fates[p] == Delivered
    ensures p in Taken(fates)
  {
    if p < |fates| - 1 { TakenAll(fates[..|fates| - 1], p); }
  }

  /**
    Chunks reach the downstream thread in strictly increasing order; every queued chunk is delivered, dropped or
    still ready; and the chunks skipped between two deliveries are exactly those that were counted as dropped.
  */
  predicate DeliveryAccount(s: State)
    requires s.ring.levels != []
  {
    var d := s.ds.delivered;
    && (forall i, j :: 0 <= i < j < |d| ==> d[i].ichunk < d[j].ichunk)
    && s.asm.queued == |d| + s.ds.dropped + (s.ring.pos0 + |s.ring.levels[0]| - s.ds.down)
    && (forall i :: 0 <= i < |d| ==> d[i].content == Raw(HitsFor(s.asm.log, d[i].ichunk)))
    && (forall i :: 0 <= i < |d| - 1 ==> SkippedAreDropped(s, d[i].ichunk, d[i + 1].ichunk))
  }

  predicate SkippedAreDropped(s: State, x: nat, y: nat) {
    forall p :: 0 <= p < |s.ds.fates| && x < s.ring.first + p < y ==> s.ds.fates[p] == Dropped
  }

  /**
    The other way round: nothing is dropped while the downstream thread keeps up.  Whatever has been dropped was followed
    by `bufsize` younger chunks at least.
  */
  predicate OnlyLateIsDropped(cfg: Config, s: State) {
    forall p :: 0 <= p < |s.ds.fates| && s.ds.fates[p] == Dropped ==> p + cfg.bufsize < |s.ring.history|
  }

  /** The downstream call: whatever has been pushed and not been taken or dropped is delivered, the oldest first. */
  lemma GetDelivers(cfg: Config, s: State, truth: nat -> Mask)
    requires GoodConfig(cfg) && TruthShaped(truth, cfg.nrf) && Reachable(cfg, s, truth)
    ensures s.ds.down <= |s.ring.history|
    ensures var t := Take(cfg, s, StepGet, truth);
            if s.ds.down == |s.ring.history| then t == s
            else
              && |t.ds.delivered| == |s.ds.delivered| + 1 && t.ds.delivered[..|s.ds.delivered|] == s.ds.delivered
              && t.ds.fates == s.ds.fates + [Delivered] && t.ds.down == s.ds.down + 1 && t.ds.dropped == s.ds.dropped
              && var c := t.ds.delivered[|s.ds.delivered|];
              c.ichunk == s.ring.first + s.ds.down && c.binning == 1 && c.content == Raw(s.ring.history[s.ds.down])
  {
    ReachableInv(cfg, s, truth);
  }

  /**
    What one push drops: of the chunks that nobody has taken, counting the pushed one, the oldest beyond `bufsize`.  If
    there are no more than that, it drops none.
  */
  lemma PushDropsExcess(cfg: Config, s: State, truth: nat -> Mask)
    requires GoodConfig(cfg) && TruthShaped(truth, cfg.nrf) && Reachable(cfg, s, truth) && s.asm.pc.Pushing?
    ensures s.asm.pc.chunk.content.Raw?
    ensures var t := Take(cfg, s, StepCommit, truth);
            var untaken := |s.ring.history| + 1 - s.ds.down;
            var n := if untaken > cfg.bufsize then untaken - cfg.bufsize else 0;
            && t.ring.history == s.ring.history + [s.asm.pc.chunk.content.hits]
            && t.ds == s.ds.(down := s.ds.down + n, dropped := s.ds.dropped + n, fates := s.ds.fates + seq(n, _ => Dropped))
  {
    ReachableInv(cfg, s, truth);
    CommitKeeps(cfg, s, truth);
    var c, plan := s.asm.pc.chunk, s.asm.pc.plan;
    assert PushingInto(cfg, s.ring, c, plan);
    hide Inv, Reachable, GoodConfig, MakePlan, Plannable, Resume;
    StoredLength(cfg, s.ring, c, plan);
  }

  /** After a push the positions of level 0 end where the history ends. */
  lemma StoredLength(cfg: Config, r: Ring, c: Chunk, plan: seq<LevelPlan>)
    requires LevelZeroInv(r) && PushingInto(cfg, r, c, plan) && Applicable(r, plan)
    ensures var t := Store(cfg, r, c, plan); t.levels != [] && t.pos0 + |t.levels[0]| == |r.history| + 1
  {
    assert Store(cfg, r, c, plan).levels[0] == r.levels[0][plan[0].npop..] + [c];
  }

  lemma DeliveriesAddUp(r: Ring, d: Downstream)
    requires DeliveredInv(r, d)
    ensures |d.delivered| + d.dropped == d.down
    ensures forall i, j :: 0 <= i < j < |d.delivered| ==> d.delivered[i].ichunk < d.delivered[j].ichunk
  {
    TakenSorted(d.fates);
    forall i, j | 0 <= i < j < |d.delivered| ensures d.delivered[i].ichunk < d.delivered[j].ichunk {
      assert Taken(d.fates)[i] < Taken(d.fates)[j];
    }
  }

  lemma GapsAreDrops(s: State, i: nat)
    requires DeliveredInv(s.ring, s.ds) && i < |s.ds.delivered| - 1
    ensures SkippedAreDropped(s, s.ds.delivered[i].ichunk, s.ds.delivered[i + 1].ichunk)
  {
    var taken := Taken(s.ds.fates);
    TakenSorted(s.ds.fates);
    forall k | 0 <= k < |taken| ensures taken[k] <= taken[i] || taken[i + 1] <= taken[k] {
      if k < i {
        assert taken[k] < taken[i];
      } else if k > i + 1 {
        assert taken[i + 1] < taken[k];
      }
    }
    forall p | 0 <= p < |s.ds.fates| && taken[i] < p < taken[i + 1] ensures s.ds.fates[p] == Dropped {
      if s.ds.fates[p] == Delivered { TakenAll(s.ds.fates, p); }
    }
  }

  lemma DeliveryAccountHolds(cfg: Config, s: State, truth: nat -> Mask)
    requires s.ring.levels != [] && DeliveredInv(s.ring, s.ds) && LogInv(s.ring, s.asm)
    requires s.asm.queued == |s.ring.history| && s.ring.pos0 + |s.ring.levels[0]| == |s.ring.history|
    ensures DeliveryAccount(s)
  {
    var d := s.ds.delivered;
    DeliveriesAddUp(s.ring, s.ds);
    forall i | 0 <= i < |d| ensures d[i].content == Raw(HitsFor(s.asm.log, d[i].ichunk)) {
      assert Taken(s.ds.fates)[i] < s.ds.down;
    }
    forall i | 0 <= i < |d| - 1 ensures SkippedAreDropped(s, d[i].ichunk, d[i + 1].ichunk) {
      GapsAreDrops(s, i);
    }
  }

  /** Neither of the program's two assertions on FPGA counts can fail: both counts strictly increase. */
  predicate CountsIncrease(cfg: Config, s: State) {
    && (s.asm.pc.Pushing? ==> FpgaEnd(cfg, s.asm.pc.chunk) > s.asm.maxFlushed)
    && (HasReady(s) ==> FpgaEnd(cfg, s.ring.levels[0][s.ds.down - s.ring.pos0]) > s.ds.maxRetrieved)
  }

  lemma FlushIncreases(cfg: Config, r: Ring, a: Assembly, c: Chunk)
    requires GoodConfig(cfg) && FlushInv(cfg, r, a) && c.ichunk == Head(r) && c.binning == 1
    ensures FpgaEnd(cfg, c) > a.maxFlushed
  {
    CountsGrow(NT * cfg.fpgaPerSample, Head(r), Head(r) + 1);
    CountsGrow(NT * cfg.fpgaPerSample, 0, Head(r) + 1);
  }

  lemma RetrieveIncreases(cfg: Config, r: Ring, d: Downstream)
    requires GoodConfig(cfg) && LevelZeroInv(r) && DeliveredInv(r, d) && RetrievedInv(cfg, d)
    requires r.pos0 <= d.down < r.pos0 + |r.levels[0]|
    ensures FpgaEnd(cfg, r.levels[0][d.down - r.pos0]) > d.maxRetrieved
  {
    var c := r.levels[0][d.down - r.pos0];
    CountsGrow(NT * cfg.fpgaPerSample, 0, c.ichunk + 1);
    if d.delivered != [] {
      var n := |d.delivered| - 1;
      assert Taken(d.fates)[n] < d.down;
      CountsGrow(NT * cfg.fpgaPerSample, d.delivered[n].ichunk + 1, c.ichunk + 1);
    }
  }

  lemma FpgaCountsIncrease(cfg: Config, s: State, truth: nat -> Mask)
    requires Inv(cfg, s, truth)
    ensures CountsIncrease(cfg, s)
  {
    if s.asm.pc.Pushing? { FlushIncreases(cfg, s.ring, s.asm, s.asm.pc.chunk); }
    if HasReady(s) { RetrieveIncreases(cfg, s.ring, s.ds); }
  }

  // ------------------------------------------------------------------------------------------------
  // The assembly window and the end of the stream

  /**
    Every packet is a hit or a miss, never both; the two active chunks are always adjacent and follow the last
    pushed chunk; and once the stream has ended, its final FPGA count is the end of the newest chunk.
  */
  predicate WindowAccount(cfg: Config, s: State) {
    && s.asm.hits + s.asm.misses == |s.asm.log|
    && s.asm.hits == CountHits(s.asm.log)
    && (s.asm.active0.Some? ==>
          && s.asm.active1.Some?
          && s.asm.active0.value.ichunk == s.ring.first + |s.ring.history|
          && s.asm.active1.value.ichunk == s.asm.active0.value.ichunk + 1)
    && (s.asm.done ==> s.asm.finalFpga == (s.ring.first + |s.ring.history|) * NT * cfg.fpgaPerSample)
  }

  lemma WindowAccountHolds(cfg: Config, r: Ring, ds: Downstream, a: Assembly)
    requires LogInv(r, a) && WindowInv(cfg, r, a)
    ensures WindowAccount(cfg, State(r, ds, a))
  {
    if a.done { FpgaIsProduct(cfg, Head(r)); }
  }

  /**
    Ending a stream does nothing if and only if there are no active chunks (the program then throws): that is so before
    the first packet, and once the stream has ended.
  */
  lemma EndBeforeFirstPacket(cfg: Config, s: State, truth: nat -> Mask)
    requires Inv(cfg, s, truth) && s.asm.pc.Resting?
    ensures Plannable(cfg, s.ring.levels)
    ensures End(cfg, s) == s <==> s.asm.active0.None?
    ensures !s.asm.started || s.asm.done ==> s.asm.active0.None?
    ensures !s.asm.started ==> !s.asm.done
  {
    EndKeeps(cfg, s, truth);
  }

  // ------------------------------------------------------------------------------------------------
  // Looking chunks up

  /** No chunk of a tiled sequence begins where an earlier one does. */
  lemma {:induction false} BeginsLater(chunks: seq<Chunk>, lo: nat, hi: nat, i: nat)
    requires Tiles(chunks, lo, hi) && i < |chunks|
    ensures lo <= chunks[i].ichunk < hi && (i > 0 ==> chunks[0].ichunk < chunks[i].ichunk)
  {
    TilesOrder(chunks[1..], lo + chunks[0].binning, hi);
    if i > 0 {
      BeginsLater(chunks[1..], lo + chunks[0].binning, hi, i - 1);
      assert chunks[1..][i - 1] == chunks[i];
    }
  }

  /** An index is the beginning of at most one stored chunk, so the order of a scan does not matter. */
  lemma {:induction false} BeginsOnce(chunks: seq<Chunk>, lo: nat, hi: nat, i: nat, j: nat)
    requires Tiles(chunks, lo, hi) && i <= j < |chunks| && chunks[i].ichunk == chunks[j].ichunk
    ensures i == j
  {
    if i == 0 {
      BeginsLater(chunks, lo, hi, j);
    } else {
      assert chunks[1..][i - 1] == chunks[i] && chunks[1..][j - 1] == chunks[j];
      BeginsOnce(chunks[1..], lo + chunks[0].binning, hi, i - 1, j - 1);
    }
  }

  lemma {:induction false} InLevelInSpan(levels: seq<seq<Chunk>>, l: nat, c: Chunk)
    requires l < |levels| && c in levels[l]
    ensures c in Span(levels)
  {
    if l > 0 { InLevelInSpan(levels[1..], l - 1, c); }
  }

  lemma SameBeginning(cfg: Config, m: nat, n: nat)
    requires cfg.fpgaPerSample > 0 && FpgaAt(cfg, m) == FpgaAt(cfg, n)
    ensures m == n
  {
    if m < n { CountsGrow(NT * cfg.fpgaPerSample, m, n); }
    if n < m { CountsGrow(NT * cfg.fpgaPerSample, n, m); }
  }

  /** A stored chunk is the only one that begins at its FPGA count, on whatever level. */
  lemma StoredOnce(cfg: Config, s: State, truth: nat -> Mask, l: nat, c: Chunk)
    requires GoodConfig(cfg) && TruthShaped(truth, cfg.nrf) && Reachable(cfg, s, truth)
    requires l < |s.ring.levels| && c in s.ring.levels[l]
    ensures forall d :: d in Span(s.ring.levels) && FpgaAt(cfg, d.ichunk) == FpgaAt(cfg, c.ichunk) ==> d == c
  {
    ReachableInv(cfg, s, truth);
    assert RingInv(cfg, s.ring, truth) && cfg.fpgaPerSample > 0;
    hide *;
    StoredOnceIn(cfg, s.ring, truth, l, c);
  }

  lemma StoredOnceIn(cfg: Config, r: Ring, truth: nat -> Mask, l: nat, c: Chunk)
    requires RingInv(cfg, r, truth) && l < |r.levels| && c in r.levels[l]
    ensures forall d :: d in Span(r.levels) && FpgaAt(cfg, d.ichunk) == FpgaAt(cfg, c.ichunk) ==> d == c
  {
    InLevelInSpan(r.levels, l, c);
    hide Span, FpgaAt, Tiles, Shape, MasksMean, AllLeaves;
    OnlyBeginning(cfg, Span(r.levels), r.first + r.evicted, Head(r), c);
  }

  lemma OnlyBeginning(cfg: Config, span: seq<Chunk>, lo: nat, hi: nat, c: Chunk)
    requires cfg.fpgaPerSample > 0 && Tiles(span, lo, hi) && c in span
    ensures forall d :: d in span && FpgaAt(cfg, d.ichunk) == FpgaAt(cfg, c.ichunk) ==> d == c
  {
    hide FpgaAt, Tiles;
    var i :| 0 <= i < |span| && span[i] == c;
    forall d | d in span && FpgaAt(cfg, d.ichunk) == FpgaAt(cfg, c.ichunk) ensures d == c {
      var j :| 0 <= j < |span| && span[j] == d;
      SameBeginning(cfg, d.ichunk, c.ichunk);
      if i <= j { BeginsOnce(span, lo, hi, i, j); } else { BeginsOnce(span, lo, hi, j, i); }
    }
  }

  // ------------------------------------------------------------------------------------------------
  // The size report

  /** What the size report gives as the last FPGA count of one level: the end of the entry at the level's position. */
  function ReportedLevelMax(cfg: Config, level: seq<Chunk>): nat {
    if level == [] then 0 else FpgaEnd(cfg, level[0])
  }

  /**
    That entry is the oldest one, so the report is the end of the level's data exactly when the level holds a
    single chunk; with two or more it is too early.
  */
  lemma LevelMaxIsRightIff(cfg: Config, r: Ring, truth: nat -> Mask, l: nat)
    requires RingInv(cfg, r, truth) && l < |r.levels| && r.levels[l] != []
    ensures ReportedLevelMax(cfg, r.levels[l]) == FpgaEnd(cfg, r.levels[l][|r.levels[l]| - 1]) <==> |r.levels[l]| == 1
  {
    var level := r.levels[l];
    var a, b := LevelTiles(r.levels, l, r.first + r.evicted, Head(r));
    assert cfg.fpgaPerSample > 0;
    hide RingInv, FpgaAt, Tiles;
    if |level| > 1 {
      EndsLater(level, a, b);
      SameBeginningOrNot(cfg, level[0].ichunk + level[0].binning, b);
    }
  }

  /** The second of two chunks ends later than the first. */
  lemma EndsLater(level: seq<Chunk>, a: nat, b: nat)
    requires Tiles(level, a, b) && |level| > 1
    ensures level[0].ichunk + level[0].binning < level[|level| - 1].ichunk + level[|level| - 1].binning == b
  {
    TilesIsContiguous(level, a, b);
    TilesOrder(level[1..][1..], a + level[0].binning + level[1].binning, b);
  }

  lemma SameBeginningOrNot(cfg: Config, m: nat, n: nat)
    requires cfg.fpgaPerSample > 0 && m != n
    ensures FpgaAt(cfg, m) != FpgaAt(cfg, n)
  {
    if FpgaAt(cfg, m) == FpgaAt(cfg, n) { SameBeginning(cfg, m, n); }
  }

  // ------------------------------------------------------------------------------------------------
  // The main theorem

  predicate Sound(cfg: Config, s: State, truth: nat -> Mask)
    requires |cfg.caps| > 0
  {
    && SelfCheck(cfg, s)
    && OneSpan(cfg, s.ring)
    && (forall i :: 0 <= i < |Span(s.ring.levels)| ==> MadeOfHits(Span(s.ring.levels)[i], s.asm.log))
    && MasksAreAnds(cfg, s.ring, truth)
    && DeliveryAccount(s) && OnlyLateIsDropped(cfg, s)
    && CountsIncrease(cfg, s)
    && WindowAccount(cfg, s)
  }

  /** After any interleaving of packets, commits, end of stream, deliveries and mask fills. */
  lemma EveryRunIsSound(cfg: Config, steps: seq<Step>, truth: nat -> Mask)
    requires GoodConfig(cfg) && TruthShaped(truth, cfg.nrf)
    ensures Sound(cfg, Run(cfg, Initial(cfg), steps, truth), truth)
  {
    InitialInv(cfg, truth);
    var s := Run(cfg, Initial(cfg), steps, truth);
    RunKeeps(cfg, Initial(cfg), steps, truth);
    InvIsSound(cfg, s, truth);
  }

  lemma InvIsSound(cfg: Config, s: State, truth: nat -> Mask)
    requires Inv(cfg, s, truth)
    ensures |cfg.caps| > 0 && Sound(cfg, s, truth)
  {
    SelfCheckHolds(cfg, s, truth);
    BufferIsOneSpan(cfg, s.ring, truth);
    forall i | 0 <= i < |Span(s.ring.levels)| ensures MadeOfHits(Span(s.ring.levels)[i], s.asm.log) {
      ContentsAreTheHits(cfg, s.ring, s.asm, truth, i);
    }
    MasksAreAndsOf(cfg, s.ring, truth);
    DeliveryAccountHolds(cfg, s, truth);
    FpgaCountsIncrease(cfg, s, truth);
    WindowAccountHolds(cfg, s.ring, s.ds, s.asm);
  }

  // ------------------------------------------------------------------------------------------------
  // Reachable states

  ghost predicate Reachable(cfg: Config, s: State, truth: nat -> Mask) {
    exists steps :: Run(cfg, Initial(cfg), steps, truth) == s
  }

  lemma ReachableInv(cfg: Config, s: State, truth: nat -> Mask)
    requires GoodConfig(cfg) && TruthShaped(truth, cfg.nrf) && Reachable(cfg, s, truth)
    ensures Inv(cfg, s, truth)
  {
    InitialInv(cfg, truth);
    var steps :| Run(cfg, Initial(cfg), steps, truth) == s;
    RunKeeps(cfg, Initial(cfg), steps, truth);
  }

  lemma InitialReachable(cfg: Config, truth: nat -> Mask)
    ensures Reachable(cfg, Initial(cfg), truth)
  {
    assert Run(cfg, Initial(cfg), [], truth) == Initial(cfg);
  }

  lemma {:induction false} RunThenStep(cfg: Config, s: State, steps: seq<Step>, step: Step, truth: nat -> Mask)
    ensures Run(cfg, s, steps + [step], truth) == Take(cfg, Run(cfg, s, steps, truth), step, truth)
    decreases |steps|
  {
    if steps == [] {
      assert [step][1..] == [] && steps + [step] == [step];
    } else {
      assert (steps + [step])[1..] == steps[1..] + [step];
      RunThenStep(cfg, Take(cfg, s, steps[0], truth), steps[1..], step, truth);
    }
  }

  lemma StepReachable(cfg: Config, s: State, step: Step, truth: nat -> Mask)
    requires Reachable(cfg, s, truth)
    ensures Reachable(cfg, Take(cfg, s, step, truth), truth)
  {
    var steps :| Run(cfg, Initial(cfg), steps, truth) == s;
    RunThenStep(cfg, Initial(cfg), steps, step, truth);
  }
}
