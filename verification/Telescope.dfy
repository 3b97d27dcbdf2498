/**
  The telescoping ring buffer, as values: a list of levels, newest level first.  A push into a full level
  merges its two oldest chunks and pushes the merged chunk one level down.  The cascade is computed as a plan
  and applied in one step, the way the assembler thread does it.
*/
module Telescope {
  import opened Options

  /** Time samples in one chunk, whatever its binning. */
  const NT: nat := 1024

  /** One RFI mask: a row of NT bits for each RFI frequency. */
  type Mask = seq<seq<bool>>

  /** What a chunk was made of: hit packets (by arrival number), or two chunks of half the binning. */
  datatype Content = Raw(hits: seq<nat>) | Downsampled(first: Content, second: Content)

  datatype Chunk = Chunk(ichunk: nat, binning: nat, content: Content, mask: Option<Mask>)

  /** What step 1 decides for one level: how many of the oldest chunks leave, and which chunk enters. */
  datatype LevelPlan = LevelPlan(npop: nat, push: Option<Chunk>)

  datatype Failure = MaskNotReady | BinningTooLarge | NotConsecutive

  datatype Planned = Ready(plan: seq<LevelPlan>) | Failed(reason: Failure)

  function Pow2(n: nat): (r: nat)
    ensures r >= 1
  {
    if n == 0 then 1 else 2 * Pow2(n - 1)
  }

  // ------------------------------------------------------------------------------------------------
  // RFI masks

  /** Pairwise AND of one row: half as many bits. */
  function HalfRow(row: seq<bool>): (r: seq<bool>)
    ensures |r| == |row| / 2
    ensures forall i :: 0 <= i < |r| ==> r[i] == (row[2 * i] && row[2 * i + 1])
  {
    seq(|row| / 2, i requires 0 <= i < |row| / 2 => row[2 * i] && row[2 * i + 1])
  }

  /** The first half of each row comes from the earlier chunk, the second half from the later one. */
  function MergeMask(a: Mask, b: Mask): (r: Mask)
    requires |a| == |b|
    ensures |r| == |a|
  {
    seq(|a|, f requires 0 <= f < |a| => HalfRow(a[f]) + HalfRow(b[f]))
  }

  predicate MaskShape(m: Mask, nrf: nat) {
    |m| == nrf && forall f :: 0 <= f < nrf ==> |m[f]| == NT
  }

  // ------------------------------------------------------------------------------------------------
  // Step 1 (plan) and step 2 (apply)

  function Merge(a: Chunk, b: Chunk, nrf: nat): Chunk
    requires nrf > 0 ==> a.mask.Some? && b.mask.Some? && |a.mask.value| == |b.mask.value|
  {
    Chunk(a.ichunk, 2 * a.binning, Downsampled(a.content, b.content),
          if nrf > 0 then Some(MergeMask(a.mask.value, b.mask.value)) else None)
  }

  function Idle(n: nat): (r: seq<LevelPlan>)
    ensures |r| == n
  {
    if n == 0 then [] else [LevelPlan(0, None)] + Idle(n - 1)
  }

  /** Every level has room for at least two chunks. */
  predicate Roomy(caps: seq<nat>) {
    caps == [] || (caps[0] >= 2 && Roomy(caps[1..]))
  }

  /** Masks, where present, all have the configured shape. */
  predicate MasksShaped(levels: seq<seq<Chunk>>, nrf: nat) {
    levels == [] || (LevelShaped(levels[0], nrf) && MasksShaped(levels[1..], nrf))
  }

  predicate LevelShaped(level: seq<Chunk>, nrf: nat) {
    forall i :: 0 <= i < |level| ==> ChunkMaskShaped(level[i], nrf)
  }

  /** The plan removes no more chunks than there are. */
  predicate Applies(levels: seq<seq<Chunk>>, plan: seq<LevelPlan>) {
    && |plan| == |levels|
    && (levels == [] || (plan[0].npop <= |levels[0]| && Applies(levels[1..], plan[1..])))
  }

  lemma {:induction false} RoomyAll(caps: seq<nat>)
    requires Roomy(caps)
    ensures forall k :: 0 <= k < |caps| ==> caps[k] >= 2
  {
    if caps != [] {
      RoomyAll(caps[1..]);
      forall k | 0 <= k < |caps| ensures caps[k] >= 2 {
        if k > 0 { assert caps[k] == caps[1..][k - 1]; }
      }
    }
  }

  lemma {:induction false} RoomyFrom(caps: seq<nat>)
    requires forall k :: 0 <= k < |caps| ==> caps[k] >= 2
    ensures Roomy(caps)
  {
    if caps != [] { RoomyFrom(caps[1..]); }
  }

  lemma {:induction false} IdleApplies(levels: seq<seq<Chunk>>)
    ensures Applies(levels, Idle(|levels|))
    ensures Apply(levels, Idle(|levels|)) == levels
  {
    if levels != [] {
      IdleApplies(levels[1..]);
      assert Idle(|levels|) == [LevelPlan(0, None)] + Idle(|levels| - 1);
      assert Idle(|levels|)[1..] == Idle(|levels| - 1);
      assert ApplyLevel(levels[0], LevelPlan(0, None)) == levels[0];
      assert [levels[0]] + levels[1..] == levels;
    }
  }

  predicate ChunkMaskShaped(c: Chunk, nrf: nat) {
    c.mask.Some? ==> MaskShape(c.mask.value, nrf)
  }

  /**
    The plan for pushing `c` into the topmost of `levels`, which is level `ids` of the whole buffer.
    Nothing is changed yet, so a failure here leaves the buffer as it was.
  */
  function MakePlan(levels: seq<seq<Chunk>>, caps: seq<nat>, ids: nat, c: Chunk, nrf: nat): (r: Planned)
    requires |levels| == |caps| > 0 && Roomy(caps) && MasksShaped(levels, nrf)
    ensures r.Ready? ==> Applies(levels, r.plan)
    ensures r.Ready? ==> r.plan[0].push == Some(c)
    ensures r.Ready? ==> r.plan[0].npop == (if |levels[0]| < caps[0] then 0 else if |levels| == 1 then 1 else 2)
    decreases |levels|
  {
    if |levels[0]| < caps[0] then
      IdleApplies(levels[1..]);
      assert ([LevelPlan(0, Some(c))] + Idle(|levels| - 1))[1..] == Idle(|levels| - 1);
      Ready([LevelPlan(0, Some(c))] + Idle(|levels| - 1))
    else if |levels| == 1 then
      if nrf > 0 && levels[0][0].mask.None? then Failed(MaskNotReady) else Ready([LevelPlan(1, Some(c))])
    else
      var a, b := levels[0][0], levels[0][1];
      if nrf > 0 && (a.mask.None? || b.mask.None?) then Failed(MaskNotReady)
      else if Pow2(ids + 1) > 8 then Failed(BinningTooLarge)
      else if a.binning != b.binning || b.ichunk != a.ichunk + b.binning || Pow2(ids + 1) != 2 * a.binning then
        Failed(NotConsecutive)
      else
        assert ChunkMaskShaped(a, nrf) && ChunkMaskShaped(b, nrf);
        match MakePlan(levels[1..], caps[1..], ids + 1, Merge(a, b, nrf), nrf)
        case Failed(e) => Failed(e)
        case Ready(rest) =>
          assert ([LevelPlan(2, Some(c))] + rest)[1..] == rest;
          Ready([LevelPlan(2, Some(c))] + rest)
  }

  function ApplyLevel(level: seq<Chunk>, p: LevelPlan): seq<Chunk>
    requires p.npop <= |level|
  {
    level[p.npop..] + if p.push.Some? then [p.push.value] else []
  }

  /** Step 2: all levels change at once. */
  function Apply(levels: seq<seq<Chunk>>, plan: seq<LevelPlan>): (r: seq<seq<Chunk>>)
    requires Applies(levels, plan)
    ensures |r| == |levels|
  {
    if levels == [] then [] else [ApplyLevel(levels[0], plan[0])] + Apply(levels[1..], plan[1..])
  }

  lemma {:induction false} ApplyAt(levels: seq<seq<Chunk>>, plan: seq<LevelPlan>, k: nat)
    requires Applies(levels, plan) && k < |levels|
    ensures plan[k].npop <= |levels[k]|
    ensures Apply(levels, plan)[k] == ApplyLevel(levels[k], plan[k])
  {
    if k > 0 { ApplyAt(levels[1..], plan[1..], k - 1); }
  }

  // ------------------------------------------------------------------------------------------------
  // The invariant

  /**
    Sizes and binnings.  The last conjunct is stronger than what the program asserts at run time (a non-empty
    level has a non-empty level above it), and unlike it is inductive by itself.
  */
  predicate Shape(levels: seq<seq<Chunk>>, caps: seq<nat>, ids: nat)
    decreases |levels|
  {
    && |levels| == |caps| > 0
    && caps[0] >= 2
    && |levels[0]| <= caps[0]
    && (forall i :: 0 <= i < |levels[0]| ==> levels[0][i].binning == Pow2(ids))
    && (|levels| > 1 ==>
          && (levels[1] != [] ==> |levels[0]| >= caps[0] - 1)
          && Shape(levels[1..], caps[1..], ids + 1))
  }

  /** All chunks in time order: the deepest level first. */
  function Span(levels: seq<seq<Chunk>>): seq<Chunk> {
    if levels == [] then [] else Span(levels[1..]) + levels[0]
  }

  /** The chunks cover [lo, hi) in order, with neither gap nor overlap. */
  predicate Tiles(chunks: seq<Chunk>, lo: nat, hi: nat) {
    if chunks == [] then lo == hi
    else chunks[0].ichunk == lo && chunks[0].binning > 0 && Tiles(chunks[1..], lo + chunks[0].binning, hi)
  }

  predicate AllFull(levels: seq<seq<Chunk>>, caps: seq<nat>)
    requires |levels| == |caps|
  {
    levels == [] || (|levels[0]| >= caps[0] && AllFull(levels[1..], caps[1..]))
  }

  lemma {:induction false} AllFullAt(levels: seq<seq<Chunk>>, caps: seq<nat>, k: nat)
    requires |levels| == |caps| && AllFull(levels, caps) && k < |levels|
    ensures |levels[k]| >= caps[k]
  {
    if k > 0 { AllFullAt(levels[1..], caps[1..], k - 1); }
  }

  /** How much of the oldest data one push loses. */
  function Evicted(levels: seq<seq<Chunk>>, caps: seq<nat>, ids: nat): nat
    requires |levels| == |caps| > 0
  {
    if AllFull(levels, caps) then Pow2(ids + |levels| - 1) else 0
  }

  // ------------------------------------------------------------------------------------------------
  // Tilings

  lemma {:induction false} TilesConcat(a: seq<Chunk>, b: seq<Chunk>, lo: nat, mid: nat, hi: nat)
    requires Tiles(a, lo, mid) && Tiles(b, mid, hi)
    ensures Tiles(a + b, lo, hi)
  {
    if a == [] {
      assert a + b == b;
    } else {
      TilesConcat(a[1..], b, lo + a[0].binning, mid, hi);
      assert (a + b)[1..] == a[1..] + b;
    }
  }

  lemma {:induction false} TilesSplit(a: seq<Chunk>, b: seq<Chunk>, lo: nat, hi: nat) returns (mid: nat)
    requires Tiles(a + b, lo, hi)
    ensures lo <= mid <= hi
    ensures Tiles(a, lo, mid) && Tiles(b, mid, hi)
  {
    if a == [] {
      assert a + b == b;
      mid := lo;
      TilesOrder(b, lo, hi);
    } else {
      assert (a + b)[1..] == a[1..] + b;
      mid := TilesSplit(a[1..], b, lo + a[0].binning, hi);
    }
  }

  lemma {:induction false} TilesOrder(a: seq<Chunk>, lo: nat, hi: nat)
    requires Tiles(a, lo, hi)
    ensures lo <= hi
  {
    if a != [] { TilesOrder(a[1..], lo + a[0].binning, hi); }
  }

  /** What tiling means entry by entry, both ends included. */
  lemma {:induction false} TilesIsContiguous(a: seq<Chunk>, lo: nat, hi: nat)
    requires Tiles(a, lo, hi)
    ensures a == [] ==> lo == hi
    ensures a != [] ==> a[0].ichunk == lo && a[|a| - 1].ichunk + a[|a| - 1].binning == hi
    ensures forall i :: 0 <= i < |a| ==> a[i].binning > 0
    ensures forall i :: 0 <= i < |a| - 1 ==> a[i + 1].ichunk == a[i].ichunk + a[i].binning
  {
    if a != [] {
      TilesIsContiguous(a[1..], lo + a[0].binning, hi);
      forall i | 0 <= i < |a| - 1 ensures a[i + 1].ichunk == a[i].ichunk + a[i].binning {
        if i > 0 { assert a[1..][i - 1 + 1].ichunk == a[1..][i - 1].ichunk + a[1..][i - 1].binning; }
      }
      forall i | 0 <= i < |a| ensures a[i].binning > 0 {
        if i > 0 { assert a[i] == a[1..][i - 1]; }
      }
    }
  }

  // ------------------------------------------------------------------------------------------------
  // One push

  lemma ShapeAll(levels: seq<seq<Chunk>>, caps: seq<nat>, ids: nat)
    requires Shape(levels, caps, ids)
    ensures forall k :: 0 <= k < |levels| ==> caps[k] >= 2 && |levels[k]| <= caps[k]
    ensures forall k :: 0 <= k < |levels| - 1 ==> (levels[k + 1] != [] ==> |levels[k]| >= caps[k] - 1)
    decreases |levels|
  {
    if |levels| > 1 {
      ShapeAll(levels[1..], caps[1..], ids + 1);
      forall k | 0 <= k < |levels| ensures caps[k] >= 2 && |levels[k]| <= caps[k] {
        if k > 0 { assert levels[k] == levels[1..][k - 1] && caps[k] == caps[1..][k - 1]; }
      }
      forall k | 0 <= k < |levels| - 1 ensures levels[k + 1] != [] ==> |levels[k]| >= caps[k] - 1 {
        if k > 0 {
          assert levels[k] == levels[1..][k - 1] && caps[k] == caps[1..][k - 1];
          assert levels[k + 1] == levels[1..][k - 1 + 1];
        }
      }
    }
  }

  lemma ApplyTail(levels: seq<seq<Chunk>>, p: LevelPlan, rest: seq<LevelPlan>)
    requires levels != [] && p.npop <= |levels[0]| && Applies(levels[1..], rest)
    ensures Applies(levels, [p] + rest)
    ensures Apply(levels, [p] + rest) == [ApplyLevel(levels[0], p)] + Apply(levels[1..], rest)
  {
    assert ([p] + rest)[1..] == rest;
  }

  lemma SpanCons(top: seq<Chunk>, below: seq<seq<Chunk>>)
    ensures Span([top] + below) == Span(below) + top
  {
    assert ([top] + below)[1..] == below;
  }

  /**
    The merged chunk of a full level covers exactly what the two oldest chunks covered, so a level can hand
    down its oldest end.
  */
  lemma MergeTiles(level: seq<Chunk>, ids: nat, lo: nat, hi: nat)
    requires |level| >= 2
    requires forall i :: 0 <= i < |level| ==> level[i].binning == Pow2(ids)
    requires Tiles(level, lo, hi)
    ensures level[0].ichunk == lo && level[1].ichunk == level[0].ichunk + level[1].binning
    ensures Tiles(level[2..], lo + Pow2(ids + 1), hi)
  {
    assert level[1..][0] == level[1];
    assert level[1..][1..] == level[2..];
  }

  /**
    One push keeps the buffer a gap-free, time-ordered tiling whose sizes and binnings are as configured; it
    never fails for lack of consecutive chunks; and it loses either nothing or exactly one bottom-level chunk.
  */
  lemma {:induction false} PushKeepsTiling(levels: seq<seq<Chunk>>, caps: seq<nat>, ids: nat, c: Chunk, nrf: nat,
                                           lo: nat, hi: nat)
    requires Shape(levels, caps, ids)
    requires Roomy(caps)
    requires MasksShaped(levels, nrf) && ChunkMaskShaped(c, nrf)
    requires Tiles(Span(levels), lo, hi)
    requires c.ichunk == hi && c.binning == Pow2(ids)
    ensures MakePlan(levels, caps, ids, c, nrf) != Failed(NotConsecutive)
    ensures MakePlan(levels, caps, ids, c, nrf).Ready? ==>
              var after := Apply(levels, MakePlan(levels, caps, ids, c, nrf).plan);
              && Shape(after, caps, ids)
              && Tiles(Span(after), lo + Evicted(levels, caps, ids), hi + Pow2(ids))
              && after[0] != [] && |after[0]| >= (if |levels[0]| == caps[0] then caps[0] - 1 else 1)
    decreases |levels|
  {
    var mid := SplitTop(levels, lo, hi);
    if |levels[0]| < caps[0] {
      PushIntoRoom(levels, caps, ids, c, nrf, lo, mid, hi);
    } else if |levels| == 1 {
      PushIntoBottom(levels, caps, ids, c, nrf, lo, hi);
    } else {
      MergeTiles(levels[0], ids, mid, hi);
      if Pow2(ids + 1) <= 8 && (nrf > 0 ==> levels[0][0].mask.Some? && levels[0][1].mask.Some?) {
        PushIntoFull(levels, caps, ids, c, nrf, lo, mid, hi);
      }
    }
  }

  lemma SplitTop(levels: seq<seq<Chunk>>, lo: nat, hi: nat) returns (mid: nat)
    requires levels != [] && Tiles(Span(levels), lo, hi)
    ensures lo <= mid <= hi
    ensures Span(levels) == Span(levels[1..]) + levels[0]
    ensures Tiles(Span(levels[1..]), lo, mid) && Tiles(levels[0], mid, hi)
  {
    mid := TilesSplit(Span(levels[1..]), levels[0], lo, hi);
  }

  lemma PushIntoRoom(levels: seq<seq<Chunk>>, caps: seq<nat>, ids: nat, c: Chunk, nrf: nat, lo: nat, mid: nat, hi: nat)
    requires Shape(levels, caps, ids) && |levels[0]| < caps[0]
    requires Roomy(caps) && MasksShaped(levels, nrf)
    requires Tiles(Span(levels[1..]), lo, mid) && Tiles(levels[0], mid, hi)
    requires c.ichunk == hi && c.binning == Pow2(ids)
    ensures MakePlan(levels, caps, ids, c, nrf).Ready?
    ensures var after := Apply(levels, MakePlan(levels, caps, ids, c, nrf).plan);
            && Shape(after, caps, ids)
            && Tiles(Span(after), lo, hi + Pow2(ids))
            && after[0] != []
    ensures !AllFull(levels, caps)
  {
    PlanOfRoom(levels, caps, ids, c, nrf);
    TilesOfRoom(levels[0], c, levels[1..], ids, lo, mid, hi);
  }

  /** A level with room takes the chunk, and nothing else changes. */
  lemma PlanOfRoom(levels: seq<seq<Chunk>>, caps: seq<nat>, ids: nat, c: Chunk, nrf: nat)
    requires |levels| == |caps| > 0 && |levels[0]| < caps[0]
    requires Roomy(caps)
    requires MasksShaped(levels, nrf)
    ensures MakePlan(levels, caps, ids, c, nrf).Ready?
    ensures Apply(levels, MakePlan(levels, caps, ids, c, nrf).plan) == [levels[0] + [c]] + levels[1..]
    ensures !AllFull(levels, caps)
  {
    IdleApplies(levels[1..]);
    ApplyTail(levels, LevelPlan(0, Some(c)), Idle(|levels| - 1));
    assert levels[0][0..] == levels[0];
  }

  lemma TilesOfRoom(level: seq<Chunk>, c: Chunk, rest: seq<seq<Chunk>>, ids: nat, lo: nat, mid: nat, hi: nat)
    requires Tiles(Span(rest), lo, mid) && Tiles(level, mid, hi)
    requires c.ichunk == hi && c.binning == Pow2(ids)
    ensures Tiles(Span([level + [c]] + rest), lo, hi + Pow2(ids))
    ensures ([level + [c]] + rest)[1..] == rest
  {
    TilesOne(c, ids);
    SpanCons(level + [c], rest);
    TilesConcat(level, [c], mid, hi, hi + Pow2(ids));
    TilesConcat(Span(rest), level + [c], lo, mid, hi + Pow2(ids));
  }

  lemma TilesOne(c: Chunk, ids: nat)
    requires c.binning == Pow2(ids)
    ensures Tiles([c], c.ichunk, c.ichunk + Pow2(ids))
  {
    assert [c][1..] == [];
  }

  lemma PushIntoBottom(levels: seq<seq<Chunk>>, caps: seq<nat>, ids: nat, c: Chunk, nrf: nat, lo: nat, hi: nat)
    requires Shape(levels, caps, ids) && |levels| == 1 && |levels[0]| == caps[0]
    requires MasksShaped(levels, nrf)
    requires Tiles(Span(levels), lo, hi)
    requires c.ichunk == hi && c.binning == Pow2(ids)
    ensures MakePlan(levels, caps, ids, c, nrf).Ready? ==>
              var after := Apply(levels, MakePlan(levels, caps, ids, c, nrf).plan);
              && Shape(after, caps, ids)
              && Tiles(Span(after), lo + Evicted(levels, caps, ids), hi + Pow2(ids))
              && |after[0]| == caps[0]
  {
    var r := MakePlan(levels, caps, ids, c, nrf);
    if r.Ready? {
      var top := levels[0];
      var after := Apply(levels, r.plan);
      assert after == [top[1..] + [c]];
      assert levels == [top] + [];
      SpanCons(top, []);
      assert Span(levels) == top;
      assert after == [top[1..] + [c]] + [];
      SpanCons(top[1..] + [c], []);
      assert Span(after) == top[1..] + [c];
      assert [c][1..] == [];
      assert Tiles([c], hi, hi + Pow2(ids));
      TilesConcat(top[1..], [c], lo + Pow2(ids), hi, hi + Pow2(ids));
      assert AllFull(levels, caps);
    }
  }

  /** A level that is full and not the bottom one plans the push of its merged oldest pair one level down. */
  lemma PlanOfFull(levels: seq<seq<Chunk>>, caps: seq<nat>, ids: nat, c: Chunk, nrf: nat)
    requires |levels| == |caps| > 1 && |levels[0]| == caps[0]
    requires Roomy(caps)
    requires MasksShaped(levels, nrf)
    requires levels[0][0].binning == levels[0][1].binning == Pow2(ids)
    requires levels[0][1].ichunk == levels[0][0].ichunk + levels[0][1].binning
    requires nrf > 0 ==> levels[0][0].mask.Some? && levels[0][1].mask.Some?
    requires Pow2(ids + 1) <= 8
    ensures nrf > 0 ==> |levels[0][0].mask.value| == |levels[0][1].mask.value|
    ensures MasksShaped(levels[1..], nrf)
    ensures var m := Merge(levels[0][0], levels[0][1], nrf);
            && ChunkMaskShaped(m, nrf)
            && var sub := MakePlan(levels[1..], caps[1..], ids + 1, m, nrf);
            && (sub.Ready? ==> MakePlan(levels, caps, ids, c, nrf) == Ready([LevelPlan(2, Some(c))] + sub.plan))
            && (sub.Failed? ==> MakePlan(levels, caps, ids, c, nrf) == sub)
  {
    assert ChunkMaskShaped(levels[0][0], nrf) && ChunkMaskShaped(levels[0][1], nrf);
  }

  lemma ShapeOfFull(level: seq<Chunk>, c: Chunk, rest: seq<seq<Chunk>>, caps: seq<nat>, ids: nat)
    requires |caps| > 1 && |level| == caps[0] >= 2
    requires forall i :: 0 <= i < |level| ==> level[i].binning == Pow2(ids)
    requires c.binning == Pow2(ids)
    requires Shape(rest, caps[1..], ids + 1)
    ensures Shape([level[2..] + [c]] + rest, caps, ids)
  {
    assert ([level[2..] + [c]] + rest)[1..] == rest;
  }

  lemma TilesOfFull(level: seq<Chunk>, c: Chunk, rest: seq<seq<Chunk>>, ids: nat, lo: nat, mid: nat, hi: nat)
    requires |level| >= 2
    requires forall i :: 0 <= i < |level| ==> level[i].binning == Pow2(ids)
    requires Tiles(level, mid, hi)
    requires c.ichunk == hi && c.binning == Pow2(ids)
    requires Tiles(Span(rest), lo, mid + Pow2(ids + 1))
    ensures Tiles(Span([level[2..] + [c]] + rest), lo, hi + Pow2(ids))
  {
    MergeTiles(level, ids, mid, hi);
    assert [c][1..] == [];
    assert Tiles([c], hi, hi + Pow2(ids));
    TilesConcat(level[2..], [c], mid + Pow2(ids + 1), hi, hi + Pow2(ids));
    TilesConcat(Span(rest), level[2..] + [c], lo, mid + Pow2(ids + 1), hi + Pow2(ids));
    SpanCons(level[2..] + [c], rest);
  }

  lemma {:induction false} PushIntoFull(levels: seq<seq<Chunk>>, caps: seq<nat>, ids: nat, c: Chunk, nrf: nat,
                                        lo: nat, mid: nat, hi: nat)
    requires Shape(levels, caps, ids) && |levels| > 1 && |levels[0]| == caps[0]
    requires Roomy(caps)
    requires MasksShaped(levels, nrf) && ChunkMaskShaped(c, nrf)
    requires Tiles(Span(levels[1..]), lo, mid) && Tiles(levels[0], mid, hi)
    requires c.ichunk == hi && c.binning == Pow2(ids)
    requires nrf > 0 ==> levels[0][0].mask.Some? && levels[0][1].mask.Some?
    requires Pow2(ids + 1) <= 8
    ensures MakePlan(levels, caps, ids, c, nrf) != Failed(NotConsecutive)
    ensures MakePlan(levels, caps, ids, c, nrf).Ready? ==>
            var after := Apply(levels, MakePlan(levels, caps, ids, c, nrf).plan);
            && Shape(after, caps, ids)
            && Tiles(Span(after), lo + Evicted(levels, caps, ids), hi + Pow2(ids))
            && after[0] != [] && |after[0]| == caps[0] - 1
    decreases |levels|, 0
  {
    var top := levels[0];
    MergeTiles(top, ids, mid, hi);
    PlanOfFull(levels, caps, ids, c, nrf);
    var m := Merge(top[0], top[1], nrf);
    PushKeepsTiling(levels[1..], caps[1..], ids + 1, m, nrf, lo, mid);
    var sub := MakePlan(levels[1..], caps[1..], ids + 1, m, nrf);
    if sub.Ready? {
      assert MakePlan(levels, caps, ids, c, nrf).plan == [LevelPlan(2, Some(c))] + sub.plan;
      EvictedTail(levels, caps, ids);
      FullGrows(levels, caps, ids, c, sub.plan, lo + Evicted(levels, caps, ids), mid, hi);
    }
  }

  lemma FullGrows(levels: seq<seq<Chunk>>, caps: seq<nat>, ids: nat, c: Chunk, plan: seq<LevelPlan>,
                  lo: nat, mid: nat, hi: nat)
    requires |levels| == |caps| == |plan| + 1 > 1 && |levels[0]| == caps[0] >= 2
    requires forall i :: 0 <= i < |levels[0]| ==> levels[0][i].binning == Pow2(ids)
    requires c.ichunk == hi && c.binning == Pow2(ids)
    requires Tiles(levels[0], mid, hi)
    requires Applies(levels[1..], plan)
    requires Shape(Apply(levels[1..], plan), caps[1..], ids + 1)
    requires Tiles(Span(Apply(levels[1..], plan)), lo, mid + Pow2(ids + 1))
    ensures Applies(levels, [LevelPlan(2, Some(c))] + plan)
    ensures var after := Apply(levels, [LevelPlan(2, Some(c))] + plan);
            && Shape(after, caps, ids)
            && Tiles(Span(after), lo, hi + Pow2(ids))
            && |after[0]| == caps[0] - 1
  {
    var top, rest := levels[0], Apply(levels[1..], plan);
    ApplyTail(levels, LevelPlan(2, Some(c)), plan);
    ShapeOfFull(top, c, rest, caps, ids);
    TilesOfFull(top, c, rest, ids, lo, mid, hi);
  }

  lemma EvictedTail(levels: seq<seq<Chunk>>, caps: seq<nat>, ids: nat)
    requires |levels| == |caps| > 1 && |levels[0]| == caps[0]
    ensures Evicted(levels, caps, ids) == Evicted(levels[1..], caps[1..], ids + 1)
  {
    assert ids + |levels| - 1 == ids + 1 + |levels[1..]| - 1;
  }
}
