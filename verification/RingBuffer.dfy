/**
  The ring buffer of one beam as the program keeps it: circular slot vectors with positions and sizes, updated in
  place.  Every method is proved to take exactly the step of the ring-buffer machine that specifies it.
*/
module RingBufferClass {
  import opened Options
  import opened RingCalls
  import opened RingMachine
  import opened RingTheorems
  import opened Telescope
  import opened TelescopeLaws
  import opened Wrapping

  // Indices into the array of event counts.
  const ASSEMBLER_HIT := 8
  const ASSEMBLER_MISS := 9
  const ASSEMBLED_CHUNK_DROPPED := 10
  const ASSEMBLED_CHUNK_QUEUED := 11
  const NUM_EVENT_TYPES := 12

  datatype Outcome = Fine | PushFailed(reason: Failure) | AfterEnd | NoActiveChunks

  type Slots = seq<Option<Chunk>>

  // ------------------------------------------------------------------------------------------------
  // One circular level

  /** `slots` holds `chunks` at positions pos, pos+1, ... modulo its length, and nothing else. */
  predicate Holds(slots: Slots, pos: nat, chunks: seq<Chunk>) {
    && |slots| > 0 && |chunks| <= |slots|
    && (forall k :: 0 <= k < |chunks| ==> slots[Slot(pos, k, |slots|)] == Some(chunks[k]))
    && (forall k :: |chunks| <= k < |slots| ==> slots[Slot(pos, k, |slots|)] == None)
  }

  lemma PopHolds(slots: Slots, pos: nat, chunks: seq<Chunk>)
    requires Holds(slots, pos, chunks) && chunks != []
    ensures Holds(slots[Slot(pos, 0, |slots|) := None], pos + 1, chunks[1..])
  {
    var n := |slots|;
    var after := slots[Slot(pos, 0, n) := None];
    var next := pos + 1;
    forall k | 0 <= k < n ensures after[Slot(next, k, n)] == if k < n - 1 then slots[Slot(pos, k + 1, n)] else None {
      if k < n - 1 { SlotDistinct(pos, 0, k + 1, n); }
      assert Slot(next, k, n) == Wrap(pos + (k + 1), n);
    }
  }

  lemma PushHolds(slots: Slots, pos: nat, chunks: seq<Chunk>, c: Chunk)
    requires Holds(slots, pos, chunks) && |chunks| < |slots|
    ensures Holds(slots[Slot(pos, |chunks|, |slots|) := Some(c)], pos, chunks + [c])
  {
    var n := |slots|;
    var after := slots[Slot(pos, |chunks|, n) := Some(c)];
    forall k | 0 <= k < n && k != |chunks| ensures after[Slot(pos, k, n)] == slots[Slot(pos, k, n)] {
      SlotDistinct(pos, k, |chunks|, n);
    }
  }

  lemma FillHolds(slots: Slots, pos: nat, chunks: seq<Chunk>, k: nat, c: Chunk)
    requires Holds(slots, pos, chunks) && k < |chunks|
    ensures Holds(slots[Slot(pos, k, |slots|) := Some(c)], pos, chunks[k := c])
  {
    var n := |slots|;
    var after := slots[Slot(pos, k, n) := Some(c)];
    forall j | 0 <= j < n && j != k ensures after[Slot(pos, j, n)] == slots[Slot(pos, j, n)] {
      SlotDistinct(pos, j, k, n);
    }
  }

  /** All levels at once. */
  predicate Stored(caps: seq<nat>, ringbuf: seq<Slots>, pos: seq<nat>, size: seq<nat>, levels: seq<seq<Chunk>>) {
    && |levels| == |caps| == |ringbuf| == |pos| == |size| > 0
    && forall l :: 0 <= l < |levels| ==>
                     && |ringbuf[l]| == caps[l]
                     && size[l] == |levels[l]|
                     && Holds(ringbuf[l], pos[l], levels[l])
  }

  lemma StoredInitially(caps: seq<nat>, ringbuf: seq<Slots>, pos: seq<nat>, size: seq<nat>, levels: seq<seq<Chunk>>)
    requires |caps| > 0 && forall l :: 0 <= l < |caps| ==> caps[l] >= 2
    requires levels == NoLevels(|caps|) && pos == seq(|caps|, _ => 0) && size == seq(|caps|, _ => 0)
    requires |ringbuf| == |caps| && forall l :: 0 <= l < |caps| ==> ringbuf[l] == seq(caps[l], _ => None)
    ensures Stored(caps, ringbuf, pos, size, levels)
  {
  }

  /** One level replaced. */
  lemma StoredAfter(caps: seq<nat>, ringbuf: seq<Slots>, pos: seq<nat>, size: seq<nat>, levels: seq<seq<Chunk>>,
                    ids: nat, slots: Slots, p: nat, level: seq<Chunk>)
    requires Stored(caps, ringbuf, pos, size, levels) && ids < |levels|
    requires |slots| == caps[ids] && Holds(slots, p, level)
    ensures Stored(caps, ringbuf[ids := slots], pos[ids := p], size[ids := |level|], levels[ids := level])
  {
  }

  // ------------------------------------------------------------------------------------------------
  // Push and pop lists

  function CountPops(poplist: Slots, ids: nat): nat
    requires 2 * ids + 1 < |poplist|
  {
    (if poplist[2 * ids].Some? then 1 else 0) + (if poplist[2 * ids + 1].Some? then 1 else 0)
  }

  /** The plan that a pair of push and pop lists encodes. */
  function ListedPlan(pushlist: Slots, poplist: Slots): (r: seq<LevelPlan>)
    requires |poplist| == 2 * |pushlist|
    ensures Lists(pushlist, poplist, r)
  {
    seq(|pushlist|, k requires 0 <= k < |pushlist| => LevelPlan(CountPops(poplist, k), pushlist[k]))
  }

  predicate Lists(pushlist: Slots, poplist: Slots, plan: seq<LevelPlan>)
    requires |poplist| == 2 * |pushlist|
  {
    |plan| == |pushlist| && forall k :: 0 <= k < |pushlist| ==> plan[k] == LevelPlan(CountPops(poplist, k), pushlist[k])
  }

  // ------------------------------------------------------------------------------------------------

  class AssembledChunkRingbuf {
    const cfg: Config

    var ringbufPos: seq<nat>
    var ringbufSize: seq<nat>
    var ringbuf: seq<Slots>
    var downstreamPos: nat

    var firstPacketReceived: bool
    var activeChunk0: Option<Chunk>
    var activeChunk1: Option<Chunk>
    var doneflag: bool
    var finalFpga: nat
    var maxFpgaFlushed: nat
    var maxFpgaRetrieved: nat

    /** The machine state this object stands for, and the masks the RFI thread would write. */
    ghost var st: State
    ghost const truth: nat -> Mask

    /** The slot vectors hold the levels of the machine. */
    ghost predicate Represents(levels: seq<seq<Chunk>>)
      reads this`ringbuf, this`ringbufPos, this`ringbufSize
    {
      Stored(cfg.caps, ringbuf, ringbufPos, ringbufSize, levels)
    }

    ghost predicate RingMatches(r: Ring)
      reads this`ringbuf, this`ringbufPos, this`ringbufSize
    {
      Represents(r.levels) && ringbufPos[0] == r.pos0
    }

    ghost predicate CursorMatches(d: Downstream)
      reads this`downstreamPos, this`maxFpgaRetrieved
    {
      downstreamPos == d.down && maxFpgaRetrieved == d.maxRetrieved
    }

    ghost predicate AssemblyMatches(a: Assembly)
      reads this`firstPacketReceived, this`activeChunk0, this`activeChunk1, this`doneflag, this`finalFpga, this`maxFpgaFlushed
    {
      && firstPacketReceived == a.started
      && activeChunk0 == a.active0 && activeChunk1 == a.active1
      && doneflag == a.done && finalFpga == a.finalFpga && maxFpgaFlushed == a.maxFlushed
    }

    ghost predicate Matches(s: State)
      reads this
    {
      RingMatches(s.ring) && CursorMatches(s.ds) && AssemblyMatches(s.asm)
    }

    ghost predicate Valid()
      reads this
    {
      && GoodConfig(cfg) && TruthShaped(truth, cfg.nrf)
      && Reachable(cfg, st, truth) && st.asm.pc.Resting?
      && Matches(st)
    }

    constructor (cfg: Config, ghost truth: nat -> Mask)
      requires GoodConfig(cfg) && TruthShaped(truth, cfg.nrf)
      ensures Valid() && this.cfg == cfg && this.truth == truth
      ensures st == Initial(cfg)
    {
      var n := |cfg.caps|;
      this.cfg := cfg;
      this.truth := truth;
      ringbufPos := seq(n, _ => 0);
      ringbufSize := seq(n, _ => 0);
      ringbuf := seq(n, l requires 0 <= l < n => seq(cfg.caps[l], _ => None));
      downstreamPos := 0;
      firstPacketReceived, activeChunk0, activeChunk1 := false, None, None;
      doneflag, finalFpga, maxFpgaFlushed, maxFpgaRetrieved := false, 0, 0, 0;
      st := Initial(cfg);
      new;
      RoomyAll(this.cfg.caps);
      StoredInitially(this.cfg.caps, ringbuf, ringbufPos, ringbufSize, this.st.ring.levels);
      InitialReachable(this.cfg, this.truth);
    }

    /** The entry at absolute position `ipos` of a level. */
    function RingbufEntry(ids: nat, ipos: nat): Option<Chunk>
      requires ids < |ringbuf| && |ringbuf[ids]| > 0
      reads this
    {
      ringbuf[ids][Wrap(ipos, |ringbuf[ids]|)]
    }

    /** Level `ids` is asked to take chunk `c`: is there room, and if not, what has to leave? */
    method ExamineLevel(ids: nat, c: Chunk, ghost levels: seq<seq<Chunk>>)
      returns (oldest: Option<Chunk>, next: Option<Chunk>, verdict: Verdict)
      requires ids < |cfg.caps|
      requires Plannable(cfg, levels) && Represents(levels)
      requires |levels[ids]| <= cfg.caps[ids] && MasksShaped(levels[ids..], cfg.nrf) && Roomy(cfg.caps[ids..])
      ensures MasksShaped(levels[ids + 1..], cfg.nrf) && Roomy(cfg.caps[ids + 1..])
      ensures Judged(levels, cfg.caps, ids, c, cfg.nrf, oldest, next, verdict)
    {
      oldest, next := None, None;
      ghost var level := levels[ids];
      PlanUnfolds(levels, cfg.caps, ids, c, cfg.nrf);
      if ringbufSize[ids] < cfg.caps[ids] {
        return oldest, next, Room;
      }
      RoomyAll(cfg.caps);
      EntryAt(ringbuf[ids], ringbufPos[ids], level, 0);
      EntryAt(ringbuf[ids], ringbufPos[ids], level, 1);
      oldest := RingbufEntry(ids, ringbufPos[ids]);
      if ids == |cfg.caps| - 1 {
        if cfg.nrf > 0 && oldest.value.mask.None? {
          return oldest, next, Bad(MaskNotReady);
        }
        assert [LevelPlan(1, Some(c))] == [LevelPlan(1, Some(c))] + Idle(0);
        return oldest, next, DropOldest;
      }
      next := RingbufEntry(ids, ringbufPos[ids] + 1);
      var a, b := oldest.value, next.value;
      if cfg.nrf > 0 && (a.mask.None? || b.mask.None?) {
        return oldest, next, Bad(MaskNotReady);
      }
      if Pow2(ids + 1) > 8 {
        return oldest, next, Bad(BinningTooLarge);
      }
      if a.binning != b.binning || b.ichunk != a.ichunk + b.binning || Pow2(ids + 1) != 2 * a.binning {
        return oldest, next, Bad(NotConsecutive);
      }
      return oldest, next, Cascade(Merge(a, b, cfg.nrf));
    }

    /** Step 1 of a push: everything that needs no lock.  Nothing is modified. */
    method PlanPush(c: Chunk, ghost levels: seq<seq<Chunk>>) returns (pushlist: Slots, poplist: Slots, failure: Option<Failure>)
      requires Plannable(cfg, levels) && Represents(levels)
      requires forall l :: 0 <= l < |levels| ==> |levels[l]| <= cfg.caps[l]
      ensures |pushlist| == |cfg.caps| && |poplist| == 2 * |cfg.caps|
      ensures MakePlan(levels, cfg.caps, 0, c, cfg.nrf) ==
              if failure.Some? then Failed(failure.value) else Ready(ListedPlan(pushlist, poplist))
    {
      var nds := |cfg.caps|;
      pushlist := seq(nds, _ => None);
      poplist := seq(2 * nds, _ => None);
      failure := None;
      pushlist := pushlist[0 := Some(c)];
      var ids := 0;
      UnderwayFirst(levels, cfg.caps, cfg.nrf, c, pushlist, poplist);
      while true
        invariant failure == None && Underway(levels, cfg.caps, cfg.nrf, c, pushlist, poplist, ids)
        decreases nds - ids
      {
        var oldest, next, verdict := ExamineLevel(ids, pushlist[ids].value, levels);
        match verdict {
          case Room =>
            StopsHere(levels, cfg.caps, cfg.nrf, c, pushlist, poplist, poplist, ids, 0);
            return;
          case DropOldest =>
            StopsHere(levels, cfg.caps, cfg.nrf, c, pushlist, poplist, poplist[2 * ids := oldest], ids, 1);
            poplist := poplist[2 * ids := oldest];
            return;
          case Bad(e) =>
            failure := Some(e);
            return;
          case Cascade(merged) =>
            GoesOn(levels, cfg.caps, cfg.nrf, c, pushlist, poplist, oldest, next, merged, ids);
            poplist := poplist[2 * ids := oldest][2 * ids + 1 := next];
            pushlist := pushlist[ids + 1 := Some(merged)];
            ids := ids + 1;
        }
      }
    }

    /** Remove `npop` old entries of level `ids` by clearing their slots, then add a new one. */
    method UpdateLevel(ids: nat, npop: nat, push: Option<Chunk>, ghost level: seq<Chunk>)
      requires ids < |ringbuf| == |ringbufPos| == |ringbufSize|
      requires Holds(ringbuf[ids], ringbufPos[ids], level) && ringbufSize[ids] == |level|
      requires npop <= |level| && (push.Some? ==> |level| - npop < |ringbuf[ids]|)
      modifies this`ringbuf, this`ringbufPos, this`ringbufSize
      ensures |ringbuf| == |ringbufPos| == |ringbufSize| == |old(ringbuf)|
      ensures ringbuf == old(ringbuf)[ids := ringbuf[ids]] && |ringbuf[ids]| == |old(ringbuf)[ids]|
      ensures ringbufPos == old(ringbufPos)[ids := ringbufPos[ids]]
      ensures ringbufSize == old(ringbufSize)[ids := ringbufSize[ids]]
      ensures ringbufPos[ids] == old(ringbufPos)[ids] + npop
      ensures var after := ApplyLevel(level, LevelPlan(npop, push));
              Holds(ringbuf[ids], ringbufPos[ids], after) && ringbufSize[ids] == |after|
    {
      var pos, slots := ringbufPos[ids], ringbuf[ids];
      for p := 0 to npop
        invariant |slots| == |ringbuf[ids]| && Holds(slots, pos + p, level[p..])
        modifies {}
      {
        PopHolds(slots, pos + p, level[p..]);
        assert level[p..][1..] == level[p + 1..];
        slots := slots[Wrap(pos + p, |slots|) := None];
      }
      if push.Some? {
        PushHolds(slots, pos + npop, level[npop..], push.value);
        slots := slots[Wrap(pos + npop + (ringbufSize[ids] - npop), |slots|) := push];
        ringbufSize := ringbufSize[ids := ringbufSize[ids] - npop + 1];
      } else {
        ringbufSize := ringbufSize[ids := ringbufSize[ids] - npop];
      }
      ringbufPos := ringbufPos[ids := pos + npop];
      ringbuf := ringbuf[ids := slots];
    }

    /** One level of step 2: its share of the lists. */
    method ApplyLevelLists(ids: nat, pushlist: Slots, poplist: Slots, ghost levels: seq<seq<Chunk>>)
      requires Represents(levels) && ids < |cfg.caps|
      requires |pushlist| == |cfg.caps| && |poplist| == 2 * |cfg.caps|
      requires CountPops(poplist, ids) <= |levels[ids]|
      requires pushlist[ids].Some? ==> |levels[ids]| - CountPops(poplist, ids) < cfg.caps[ids]
      modifies this`ringbuf, this`ringbufPos, this`ringbufSize
      ensures Represents(levels[ids := ApplyLevel(levels[ids], LevelPlan(CountPops(poplist, ids), pushlist[ids]))])
      ensures ringbufPos[0] == old(ringbufPos)[0] + if ids == 0 then CountPops(poplist, 0) else 0
    {
      var npop := 0;
      if poplist[2 * ids].Some? { npop := npop + 1; }
      if poplist[2 * ids + 1].Some? { npop := npop + 1; }
      ghost var rb, pos, size := ringbuf, ringbufPos, ringbufSize;
      UpdateLevel(ids, npop, pushlist[ids], levels[ids]);
      StoredAfter(cfg.caps, rb, pos, size, levels, ids, ringbuf[ids], ringbufPos[ids],
                  ApplyLevel(levels[ids], LevelPlan(npop, pushlist[ids])));
    }

    /** Step 2 of a push, under the lock: apply the lists to all levels. */
    method ApplyLists(pushlist: Slots, poplist: Slots, ghost levels: seq<seq<Chunk>>, ghost plan: seq<LevelPlan>)
      requires Represents(levels) && |pushlist| == |cfg.caps| && |poplist| == 2 * |pushlist|
      requires Lists(pushlist, poplist, plan)
      requires Applies(levels, plan) && Fits(levels, cfg.caps, plan)
      modifies this`ringbuf, this`ringbufPos, this`ringbufSize
      ensures Represents(Apply(levels, plan))
      ensures ringbufPos[0] == old(ringbufPos)[0] + CountPops(poplist, 0)
    {
      PartlyEnds(levels, plan);
      hide Stored, Apply, Partly, Applies, Represents;
      for ids := 0 to |cfg.caps|
        invariant Represents(Partly(levels, plan, ids))
        invariant ringbufPos[0] == old(ringbufPos)[0] + if ids > 0 then CountPops(poplist, 0) else 0
      {
        PartlyNext(levels, plan, ids);
        ApplyLevelLists(ids, pushlist, poplist, Partly(levels, plan, ids));
      }
    }

    /** Chunks that the downstream thread was too slow for are skipped. */
    method SkipExcess(ghost r: Ring) returns (dropped: nat)
      requires Represents(r.levels) && ringbufPos[0] == r.pos0
      modifies this`downstreamPos
      ensures dropped == Excess(cfg, r, old(downstreamPos))
      ensures downstreamPos == old(downstreamPos) + dropped
      ensures var lag := ringbufPos[0] + ringbufSize[0] - cfg.bufsize;
              downstreamPos == if old(downstreamPos) < lag then lag else old(downstreamPos)
    {
      dropped := 0;
      var allowed := ringbufPos[0] + ringbufSize[0] - cfg.bufsize;
      if downstreamPos < allowed {
        dropped := allowed - downstreamPos;
        downstreamPos := allowed;
      }
    }

    /** Push one finished chunk.  If planning fails, the ring stays as it was. */
    method PutAssembledChunk(c: Chunk, counts: array<int>, ghost r: Ring) returns (failure: Option<Failure>)
      requires counts.Length == NUM_EVENT_TYPES && RingMatches(r) && Plannable(cfg, r.levels)
      requires forall l :: 0 <= l < |r.levels| ==> |r.levels[l]| <= cfg.caps[l]
      requires c.content.Raw?
      modifies this`ringbuf, this`ringbufPos, this`ringbufSize, this`downstreamPos, this`maxFpgaFlushed, counts
      ensures failure.Some? ==>
                && MakePlan(r.levels, cfg.caps, 0, c, cfg.nrf) == Failed(failure.value)
                && RingMatches(r) && downstreamPos == old(downstreamPos) && maxFpgaFlushed == old(maxFpgaFlushed)
                && counts[..] == old(counts[..])
      ensures failure.None? ==>
                && MakePlan(r.levels, cfg.caps, 0, c, cfg.nrf).Ready?
                && var plan := MakePlan(r.levels, cfg.caps, 0, c, cfg.nrf).plan;
                && Applicable(r, plan)
                && var after := Store(cfg, r, c, plan);
                && RingMatches(after)
                && after.levels != []
                && downstreamPos == old(downstreamPos) + Excess(cfg, after, old(downstreamPos))
                && maxFpgaFlushed == FpgaEnd(cfg, c)
                && Counted(old(counts[..]), counts[..], Excess(cfg, after, old(downstreamPos)))
      ensures failure.None? ==>
                && ringbufPos != [] && ringbufSize != []
                && var lag := ringbufPos[0] + ringbufSize[0] - cfg.bufsize;
                && downstreamPos == (if old(downstreamPos) < lag then lag else old(downstreamPos))
                && Counted(old(counts[..]), counts[..], downstreamPos - old(downstreamPos))
    {
      var pushlist, poplist;
      pushlist, poplist, failure := PlanPush(c, r.levels);
      if failure.Some? {
        return;
      }
      ghost var plan := ListedPlan(pushlist, poplist);
      PlanFits(r.levels, cfg.caps, 0, c, cfg.nrf);
      ApplyLists(pushlist, poplist, r.levels, plan);
      ghost var after := Store(cfg, r, c, plan);
      assert after.levels == Apply(r.levels, plan);
      var dropped := SkipExcess(after);
      counts[ASSEMBLED_CHUNK_QUEUED] := counts[ASSEMBLED_CHUNK_QUEUED] + 1;
      counts[ASSEMBLED_CHUNK_DROPPED] := counts[ASSEMBLED_CHUNK_DROPPED] + dropped;
      maxFpgaFlushed := FpgaEnd(cfg, c);
    }

    /** Add a packet, known by its arrival number, to the active chunk it belongs to. */
    method AddPacket(ichunk: nat, packet: nat, counts: array<int>, ghost a: Assembly)
      requires counts.Length == NUM_EVENT_TYPES && packet == |a.log|
      requires activeChunk0.Some? && activeChunk1.Some? && activeChunk0 == a.active0 && activeChunk1 == a.active1
      modifies this`activeChunk0, this`activeChunk1, counts
      ensures activeChunk0 == Place(a, ichunk).active0 && activeChunk1 == Place(a, ichunk).active1
      ensures counts[..] == old(counts[..])[ASSEMBLER_HIT := old(counts[ASSEMBLER_HIT]) + Place(a, ichunk).hits - a.hits]
                                           [ASSEMBLER_MISS := old(counts[ASSEMBLER_MISS]) + Place(a, ichunk).misses - a.misses]
    {
      if ichunk == activeChunk0.value.ichunk {
        counts[ASSEMBLER_HIT] := counts[ASSEMBLER_HIT] + 1;
        activeChunk0 := Some(WithHit(activeChunk0.value, packet));
      } else if ichunk == activeChunk1.value.ichunk {
        counts[ASSEMBLER_HIT] := counts[ASSEMBLER_HIT] + 1;
        activeChunk1 := Some(WithHit(activeChunk1.value, packet));
      } else {
        counts[ASSEMBLER_MISS] := counts[ASSEMBLER_MISS] + 1;
      }
    }

    /** The first packet opens the window at the (aligned) chunk it falls in. */
    method OpenWindow(ichunk: nat)
      requires AssemblyMatches(st.asm)
      modifies this`firstPacketReceived, this`activeChunk0, this`activeChunk1
      ensures AssemblyMatches(Start(cfg, st, ichunk).asm)
    {
      if !firstPacketReceived {
        var first := if cfg.align > 0 then ((ichunk + cfg.align - 1) / cfg.align) * cfg.align else ichunk;
        activeChunk0 := Some(FreshChunk(first));
        activeChunk1 := Some(FreshChunk(first + 1));
        firstPacketReceived := true;
      }
    }

    /** The older active chunk leaves the window and is pushed. */
    method PushOldest(counts: array<int>, ghost t: State) returns (failure: Option<Failure>)
      requires counts.Length == NUM_EVENT_TYPES
      requires Matches(t) && Pushable(cfg, t) && t.asm.active0.Some?
      modifies this`ringbuf, this`ringbufPos, this`ringbufSize, this`downstreamPos, this`maxFpgaFlushed,
               this`activeChunk0, counts
      ensures activeChunk0 == None
      ensures failure.Some? <==> Shifted(cfg, t).asm.active0.None?
      ensures RingMatches(Shifted(cfg, t).ring) && CursorMatches(Shifted(cfg, t).ds)
      ensures maxFpgaFlushed == Shifted(cfg, t).asm.maxFlushed
      ensures CountsFollow(old(counts[..]), counts[..], t, Shifted(cfg, t))
    {
      var c := activeChunk0.value;
      activeChunk0 := None;
      failure := PutAssembledChunk(c, counts, t.ring);
    }

    /** The push of the older active chunk, and the move of the window that follows it. */
    method ShiftWindow(counts: array<int>, ghost t: State) returns (failure: Option<Failure>)
      requires counts.Length == NUM_EVENT_TYPES
      requires Matches(t) && Pushable(cfg, t) && activeChunk0.Some?
      modifies this`ringbuf, this`ringbufPos, this`ringbufSize, this`downstreamPos, this`maxFpgaFlushed,
               this`activeChunk0, this`activeChunk1, counts
      ensures Matches(Shifted(cfg, t))
      ensures failure.Some? <==> activeChunk0.None?
      ensures failure.None? ==> activeChunk1.Some?
      ensures CountsFollow(old(counts[..]), counts[..], t, Shifted(cfg, t))
    {
      failure := PushOldest(counts, t);
      if failure.None? {
        activeChunk0 := activeChunk1;
        activeChunk1 := Some(FreshChunk(activeChunk0.value.ichunk + 1));
      }
    }

    /** The work on one packet once the window is open. */
    method ReceivePacket(ichunk: nat, packet: nat, counts: array<int>, ghost t: State) returns (outcome: Outcome)
      requires counts.Length == NUM_EVENT_TYPES && packet == |t.asm.log|
      requires Matches(t) && Pushable(cfg, t)
      modifies this`ringbuf, this`ringbufPos, this`ringbufSize, this`downstreamPos, this`maxFpgaFlushed,
               this`activeChunk0, this`activeChunk1, counts
      ensures Matches(PacketResult(cfg, t, ichunk))
      ensures CountsFollow(old(counts[..]), counts[..], t, PacketResult(cfg, t, ichunk))
    {
      MatchesParts(t);
      PacketCases(cfg, t, ichunk);
      NothingCounted(counts[..], t);
      ghost var before := counts[..];
      hide PacketResult, Shifted, Place, Stored, Plannable, CountsFollow, RingMatches, CursorMatches;
      if activeChunk0.None? || activeChunk1.None? {
        return AfterEnd;
      }
      ghost var u := t;
      if ichunk >= activeChunk0.value.ichunk + 2 {
        u := Shifted(cfg, t);
        var failure := ShiftWindow(counts, t);
        MatchesParts(u);
        if failure.Some? {
          return PushFailed(failure.value);
        }
      }
      ghost var mid := counts[..];
      AddPacket(ichunk, packet, counts, u.asm);
      PlaceOnlyPlaces(u.asm, ichunk);
      MatchesParts(u.(asm := Place(u.asm, ichunk)));
      PlaceCounts(before, mid, counts[..], t, u, ichunk);
      outcome := Fine;
    }

    /** A packet for this beam: assemble it, first advancing the window by one chunk if it lies beyond. */
    method PutUnassembledPacket(fpgaCount: nat, packet: nat, counts: array<int>) returns (outcome: Outcome)
      requires Valid() && counts.Length == NUM_EVENT_TYPES && packet == |st.asm.log|
      modifies this, counts
      ensures Valid()
      ensures st == Dealt(cfg, old(st), fpgaCount / cfg.fpgaPerSample / NT, truth)
      ensures CountsFollow(old(counts[..]), counts[..], old(st), st)
    {
      var ichunk := fpgaCount / cfg.fpgaPerSample / NT;
      ghost var s, t := st, Start(cfg, st, ichunk);
      PacketComes(ichunk);
      hide *;
      OpenWindow(ichunk);
      MatchesParts(t);
      outcome := ReceivePacket(ichunk, packet, counts, t);
      st := PacketResult(cfg, t, ichunk);
      CountsFromStart(cfg, s, ichunk, old(counts[..]), counts[..], st);
      ValidAgain();
    }

    /** What a valid object knows when a packet comes. */
    lemma PacketComes(ichunk: nat)
      requires Valid()
      ensures RingMatches(Start(cfg, st, ichunk).ring) && CursorMatches(Start(cfg, st, ichunk).ds) && AssemblyMatches(st.asm)
      ensures Pushable(cfg, Start(cfg, st, ichunk)) && |Start(cfg, st, ichunk).asm.log| == |st.asm.log|
      ensures PacketResult(cfg, Start(cfg, st, ichunk), ichunk) == Dealt(cfg, st, ichunk, truth)
      ensures Reachable(cfg, Dealt(cfg, st, ichunk, truth), truth) && Dealt(cfg, st, ichunk, truth).asm.pc.Resting?
      ensures GoodConfig(cfg) && TruthShaped(truth, cfg.nrf)
    {
      StartsReady(cfg, st, ichunk, truth);
      PacketResultIsDealt(cfg, st, ichunk, truth);
      hide Reachable, Dealt, PacketResult, Pushable, Stored;
    }

    lemma MatchesParts(t: State)
      ensures Matches(t) <==> RingMatches(t.ring) && CursorMatches(t.ds) && AssemblyMatches(t.asm)
    {
      hide RingMatches, CursorMatches, AssemblyMatches;
    }

    lemma ValidAgain()
      requires GoodConfig(cfg) && TruthShaped(truth, cfg.nrf) && Reachable(cfg, st, truth) && st.asm.pc.Resting? && Matches(st)
      ensures Valid()
    {
    }

    /** The younger active chunk is pushed, at the end of the stream. */
    method PushYounger(counts: array<int>, ghost h: State, fin: nat) returns (failure: Option<Failure>)
      requires counts.Length == NUM_EVENT_TYPES
      requires Matches(h) && Pushable(cfg, h) && activeChunk0.None? && activeChunk1.Some? && !doneflag
      modifies this`ringbuf, this`ringbufPos, this`ringbufSize, this`downstreamPos, this`maxFpgaFlushed,
               this`activeChunk1, counts
      ensures activeChunk1 == None && failure.None? == FullyEnded(cfg, h, fin).asm.done
      ensures RingMatches(FullyEnded(cfg, h, fin).ring) && CursorMatches(FullyEnded(cfg, h, fin).ds)
      ensures maxFpgaFlushed == FullyEnded(cfg, h, fin).asm.maxFlushed
      ensures CountsFollow(old(counts[..]), counts[..], h, FullyEnded(cfg, h, fin))
    {
      var c := activeChunk1.value;
      activeChunk1 := None;
      failure := PutAssembledChunk(c, counts, h.ring);
    }

    /** The second half of ending a stream; the counts are followed from where they stood before the first. */
    method FinishStream(counts: array<int>, ghost h: State, fin: nat, ghost before: seq<int>, ghost s: State)
      returns (outcome: Outcome)
      requires counts.Length == NUM_EVENT_TYPES && CountsFollow(before, counts[..], s, h)
      requires Matches(h) && Pushable(cfg, h) && activeChunk0.None? && activeChunk1.Some? && !doneflag
      modifies this`ringbuf, this`ringbufPos, this`ringbufSize, this`downstreamPos, this`maxFpgaFlushed,
               this`activeChunk1, this`doneflag, this`finalFpga, counts
      ensures Matches(FullyEnded(cfg, h, fin))
      ensures if FullyEnded(cfg, h, fin).asm.done then outcome.Fine? else outcome.PushFailed?
      ensures CountsFollow(before, counts[..], s, FullyEnded(cfg, h, fin))
    {
      ghost var between := counts[..];
      var failure := PushYounger(counts, h, fin);
      CountsChain(before, between, counts[..], s, h, FullyEnded(cfg, h, fin));
      if failure.Some? {
        return PushFailed(failure.value);
      }
      doneflag := true;
      finalFpga := fin;
      outcome := Fine;
    }

    /** The first half of ending a stream. */
    method PushOlder(counts: array<int>, ghost s: State) returns (failure: Option<Failure>)
      requires counts.Length == NUM_EVENT_TYPES
      requires Matches(s) && Pushable(cfg, s) && activeChunk0.Some?
      modifies this`ringbuf, this`ringbufPos, this`ringbufSize, this`downstreamPos, this`maxFpgaFlushed,
               this`activeChunk0, counts
      ensures Matches(HalfEnded(cfg, s)) && activeChunk0.None?
      ensures failure.Some? <==> Shifted(cfg, s).asm.active0.None?
      ensures CountsFollow(old(counts[..]), counts[..], s, HalfEnded(cfg, s))
    {
      failure := PushOldest(counts, s);
    }

    /** Push both active chunks and raise the flag; `u` is the state that results. */
    method PushActiveChunks(counts: array<int>, ghost s: State) returns (outcome: Outcome, ghost u: State)
      requires counts.Length == NUM_EVENT_TYPES
      requires Matches(s) && EndReady(cfg, s) && activeChunk0.Some? && !doneflag
      modifies this`ringbuf, this`ringbufPos, this`ringbufSize, this`downstreamPos, this`maxFpgaFlushed,
               this`activeChunk0, this`activeChunk1, this`doneflag, this`finalFpga, counts
      ensures u == EndResult(cfg, s) && Matches(u)
      ensures outcome.Fine? || outcome.PushFailed?
      ensures CountsFollow(old(counts[..]), counts[..], s, u)
    {
      ghost var before := counts[..];
      var fin := FpgaAt(cfg, activeChunk0.value.ichunk + 2);
      u := HalfEnded(cfg, s);
      var failure := PushOlder(counts, s);
      if failure.Some? {
        return PushFailed(failure.value), u;
      }
      outcome := FinishStream(counts, u, fin, before, s);
      u := FullyEnded(cfg, u, fin);
    }

    /** No more packets. */
    method EndStream(counts: array<int>) returns (outcome: Outcome)
      requires Valid() && counts.Length == NUM_EVENT_TYPES
      modifies this, counts
      ensures Valid() && st == Ended(cfg, old(st), truth)
      ensures outcome.NoActiveChunks? <==> old(activeChunk0).None?
      ensures CountsFollow(old(counts[..]), counts[..], old(st), st)
    {
      ghost var s := st;
      StartsReady(cfg, s, 0, truth);
      EndResultIsEnded(cfg, s, truth);
      ActiveNotDone(cfg, s, truth);
      if activeChunk0.None? || activeChunk1.None? {
        return NoActiveChunks;
      }
      outcome, st := PushActiveChunks(counts, s);
    }

    /** The downstream thread takes the next chunk; without one it gets nothing (it may then wait and try again). */
    method GetAssembledChunk() returns (chunk: Option<Chunk>)
      requires Valid()
      modifies this`downstreamPos, this`maxFpgaRetrieved, this`st
      ensures Valid() && st == Take(cfg, old(st), StepGet, truth)
      ensures chunk.Some? <==> HasReady(old(st))
      ensures chunk.Some? ==> st.ds.delivered == old(st).ds.delivered + [chunk.value]
      ensures chunk.Some? <==> old(st).ds.down < |old(st).ring.history|
    {
      GetDelivers(cfg, st, truth);
      chunk := None;
      TakeReady(cfg, st, truth);
      StepReachable(cfg, st, StepGet, truth);
      if downstreamPos < ringbufPos[0] + ringbufSize[0] {
        EntryAt(ringbuf[0], ringbufPos[0], st.ring.levels[0], downstreamPos - ringbufPos[0]);
        chunk := RingbufEntry(0, downstreamPos);
        downstreamPos := downstreamPos + 1;
        maxFpgaRetrieved := FpgaEnd(cfg, chunk.value);
      }
      st := Take(cfg, st, StepGet, truth);
    }

    /** The RFI thread, which shares the chunks, writes the mask of the k-th oldest level-0 chunk if it has none yet. */
    method FillMask(k: nat, mask: Mask)
      requires Valid() && st.ring.levels != []
      requires k < |st.ring.levels[0]| ==> mask == truth(st.ring.levels[0][k].ichunk)
      modifies this`ringbuf, this`st
      ensures Valid() && st == Take(cfg, old(st), StepFill(k), truth)
    {
      StepReachable(cfg, st, StepFill(k), truth);
      if cfg.nrf > 0 && k < ringbufSize[0] {
        ghost var level := st.ring.levels[0];
        EntryAt(ringbuf[0], ringbufPos[0], level, k);
        var c := RingbufEntry(0, ringbufPos[0] + k).value;
        if c.mask.None? {
          var filled := c.(mask := Some(mask));
          FillHolds(ringbuf[0], ringbufPos[0], level, k, filled);
          ringbuf := ringbuf[0 := ringbuf[0][Wrap(ringbufPos[0] + k, |ringbuf[0]|) := Some(filled)]];
          assert Represents(st.ring.levels[0 := level[k := filled]]);
        }
      }
      st := Take(cfg, st, StepFill(k), truth);
    }

    /** One level of the search, oldest entry first. */
    method ScanLevel(lev: nat, fpga: nat, ghost level: seq<Chunk>) returns (found: Option<Chunk>)
      requires lev < |ringbuf| == |ringbufPos| == |ringbufSize|
      requires Holds(ringbuf[lev], ringbufPos[lev], level) && ringbufSize[lev] == |level|
      ensures found.Some? ==> found.value in level && FpgaAt(cfg, found.value.ichunk) == fpga
      ensures found.None? ==> NoneBegins(cfg, level, fpga)
    {
      hide FpgaAt;
      for k := 0 to ringbufSize[lev]
        invariant NoneBegins(cfg, level[..k], fpga)
      {
        EntryAt(ringbuf[lev], ringbufPos[lev], level, k);
        var ch := RingbufEntry(lev, ringbufPos[lev] + k).value;
        if FpgaAt(cfg, ch.ichunk) == fpga { return Some(ch); }
        assert level[..k + 1] == level[..k] + [ch];
      }
      assert level[..ringbufSize[lev]] == level;
      found := None;
    }

    /** All levels of a valid object are held. */
    lemma LevelsHeld()
      requires Valid()
      ensures |ringbuf| == |ringbufPos| == |ringbufSize| == |cfg.caps| == |st.ring.levels| > 0
      ensures forall l :: 0 <= l < |st.ring.levels| ==>
                            Holds(ringbuf[l], ringbufPos[l], st.ring.levels[l]) && ringbufSize[l] == |st.ring.levels[l]|
      ensures GoodConfig(cfg) && TruthShaped(truth, cfg.nrf) && Reachable(cfg, st, truth)
      ensures doneflag == st.asm.done && finalFpga == st.asm.finalFpga
    {
      hide Holds, Reachable;
    }

    /** The stored chunk that begins at an FPGA count, looked up deepest level first. */
    method FindAssembledChunk(fpga: nat, topLevelOnly: bool) returns (found: Lookup)
      requires Valid()
      ensures found.PastEnd? <==> doneflag && fpga >= finalFpga
      ensures found.Found? ==>
                exists l :: 0 <= l < |st.ring.levels| && found.chunk in st.ring.levels[l] && (topLevelOnly ==> l == 0)
      ensures found.Found? ==> FpgaAt(cfg, found.chunk.ichunk) == fpga
      ensures found.Found? ==> forall c :: c in Span(st.ring.levels) && FpgaAt(cfg, c.ichunk) == fpga ==> c == found.chunk
      ensures st.ring.levels != []
      ensures found.Missing? ==> forall l :: 0 <= l < (if topLevelOnly then 1 else |st.ring.levels|) ==>
                                               NoneBegins(cfg, st.ring.levels[l], fpga)
    {
      LevelsHeld();
      hide *;
      if doneflag && fpga >= finalFpga {
        return PastEnd;
      }
      var lev: nat := if topLevelOnly then 1 else |cfg.caps|;
      while lev > 0
        invariant lev <= |st.ring.levels| && (topLevelOnly ==> lev <= 1)
        invariant forall l :: lev <= l < (if topLevelOnly then 1 else |st.ring.levels|) ==>
                                NoneBegins(cfg, st.ring.levels[l], fpga)
      {
        lev := lev - 1;
        var ch := ScanLevel(lev, fpga, st.ring.levels[lev]);
        if ch.Some? {
          StoredOnce(cfg, st, truth, lev, ch.value);
          return Found(ch.value);
        }
      }
      found := Missing;
    }
  }

  /** The three things a packet can do. */
  lemma PacketCases(cfg: Config, t: State, ichunk: nat)
    requires Pushable(cfg, t)
    ensures t.asm.active0.None? || t.asm.active1.None? ==> PacketResult(cfg, t, ichunk) == t
    ensures t.asm.active0.Some? && t.asm.active1.Some? && ichunk < t.asm.active0.value.ichunk + 2 ==>
              PacketResult(cfg, t, ichunk) == t.(asm := Place(t.asm, ichunk))
    ensures t.asm.active0.Some? && t.asm.active1.Some? && ichunk >= t.asm.active0.value.ichunk + 2 ==>
              var u := Shifted(cfg, t);
              && |u.asm.log| == |t.asm.log|
              && PacketResult(cfg, t, ichunk) ==
                 if u.asm.active0.None? || u.asm.active1.None? then u else u.(asm := Place(u.asm, ichunk))
  {
    hide MakePlan, Store, Catchup, Place;
  }

  lemma NothingCounted(counts: seq<int>, t: State)
    requires |counts| == NUM_EVENT_TYPES
    ensures CountsFollow(counts, counts, t, t)
  {
  }

  lemma PlaceCounts(before: seq<int>, mid: seq<int>, after: seq<int>, t: State, u: State, ichunk: nat)
    requires CountsFollow(before, mid, t, u) && u.asm.active0.Some? && u.asm.active1.Some?
    requires |mid| == NUM_EVENT_TYPES
             && after == mid[ASSEMBLER_HIT := mid[ASSEMBLER_HIT] + Place(u.asm, ichunk).hits - u.asm.hits]
                            [ASSEMBLER_MISS := mid[ASSEMBLER_MISS] + Place(u.asm, ichunk).misses - u.asm.misses]
    ensures CountsFollow(before, after, t, u.(asm := Place(u.asm, ichunk)))
  {
  }

  lemma PlaceOnlyPlaces(a: Assembly, ichunk: nat)
    requires a.active0.Some? && a.active1.Some?
    ensures var b := Place(a, ichunk);
            b.started == a.started && b.done == a.done && b.finalFpga == a.finalFpga && b.maxFlushed == a.maxFlushed
  {
  }

  /** Opening the window counts nothing. */
  lemma CountsFromStart(cfg: Config, s: State, ichunk: nat, before: seq<int>, after: seq<int>, u: State)
    requires CountsFollow(before, after, Start(cfg, s, ichunk), u)
    ensures CountsFollow(before, after, s, u)
  {
  }

  datatype Lookup = PastEnd | Found(chunk: Chunk) | Missing

  predicate NoneBegins(cfg: Config, chunks: seq<Chunk>, fpga: nat) {
    forall c :: c in chunks ==> FpgaAt(cfg, c.ichunk) != fpga
  }

  /** Each event count moves with the machine counter it stands for. */
  predicate CountsFollow(before: seq<int>, after: seq<int>, s: State, t: State) {
    && |before| == |after| == NUM_EVENT_TYPES
    && after == before[ASSEMBLER_HIT := before[ASSEMBLER_HIT] + t.asm.hits - s.asm.hits]
                      [ASSEMBLER_MISS := before[ASSEMBLER_MISS] + t.asm.misses - s.asm.misses]
                      [ASSEMBLED_CHUNK_DROPPED := before[ASSEMBLED_CHUNK_DROPPED] + t.ds.dropped - s.ds.dropped]
                      [ASSEMBLED_CHUNK_QUEUED := before[ASSEMBLED_CHUNK_QUEUED] + t.asm.queued - s.asm.queued]
  }

  lemma CountsChain(a: seq<int>, b: seq<int>, c: seq<int>, s: State, t: State, u: State)
    requires CountsFollow(a, b, s, t) && CountsFollow(b, c, t, u)
    ensures CountsFollow(a, c, s, u)
  {
  }

  /** One more chunk queued, `dropped` more chunks dropped, all other counts as before. */
  predicate Counted(before: seq<int>, after: seq<int>, dropped: nat) {
    && |before| == |after| == NUM_EVENT_TYPES
    && after == before[ASSEMBLED_CHUNK_QUEUED := before[ASSEMBLED_CHUNK_QUEUED] + 1]
                      [ASSEMBLED_CHUNK_DROPPED := before[ASSEMBLED_CHUNK_DROPPED] + dropped]
  }

  /** The plan removes no more than there is, and never adds to a level that stays full. */
  predicate Fits(levels: seq<seq<Chunk>>, caps: seq<nat>, plan: seq<LevelPlan>) {
    && |levels| == |caps| == |plan|
    && forall k :: 0 <= k < |levels| ==>
                     && plan[k].npop <= |levels[k]| <= caps[k]
                     && (plan[k].push.Some? ==> |levels[k]| - plan[k].npop < caps[k])
  }

  lemma {:induction false} PlanFits(levels: seq<seq<Chunk>>, caps: seq<nat>, ids: nat, c: Chunk, nrf: nat)
    requires |levels| == |caps| > 0 && MasksShaped(levels, nrf) && Roomy(caps)
    requires forall k :: 0 <= k < |caps| ==> |levels[k]| <= caps[k]
    requires MakePlan(levels, caps, ids, c, nrf).Ready?
    ensures Fits(levels, caps, MakePlan(levels, caps, ids, c, nrf).plan)
    decreases |levels|
  {
    var plan := MakePlan(levels, caps, ids, c, nrf).plan;
    if |levels[0]| < caps[0] {
      forall k | 0 < k < |levels| ensures plan[k] == LevelPlan(0, None) {
        IdleAt(|levels| - 1, k - 1);
      }
    } else if |levels| > 1 {
      var a, b := levels[0][0], levels[0][1];
      assert ChunkMaskShaped(a, nrf) && ChunkMaskShaped(b, nrf);
      var m := Merge(a, b, nrf);
      var rest := MakePlan(levels[1..], caps[1..], ids + 1, m, nrf).plan;
      PlanFits(levels[1..], caps[1..], ids + 1, m, nrf);
      FitsCons(levels, caps, LevelPlan(2, Some(c)), rest);
    }
  }

  lemma {:induction false} IdleAt(n: nat, k: nat)
    requires k < n
    ensures Idle(n)[k] == LevelPlan(0, None)
  {
    if k > 0 { IdleAt(n - 1, k - 1); }
  }

  lemma FitsCons(levels: seq<seq<Chunk>>, caps: seq<nat>, p: LevelPlan, rest: seq<LevelPlan>)
    requires levels != [] && caps != [] && Fits(levels[1..], caps[1..], rest)
    requires p.npop <= |levels[0]| <= caps[0] && (p.push.Some? ==> |levels[0]| - p.npop < caps[0])
    ensures Fits(levels, caps, [p] + rest)
  {
    forall k | 0 < k < |levels|
      ensures rest[k - 1].npop <= |levels[k]| <= caps[k]
      ensures rest[k - 1].push.Some? ==> |levels[k]| - rest[k - 1].npop < caps[k]
    {
      assert levels[k] == levels[1..][k - 1] && caps[k] == caps[1..][k - 1];
    }
  }

  /** The first `ids` levels updated, the others not yet. */
  function Partly(levels: seq<seq<Chunk>>, plan: seq<LevelPlan>, ids: nat): (r: seq<seq<Chunk>>)
    requires Applies(levels, plan) && ids <= |levels|
    ensures |r| == |levels|
  {
    Apply(levels, plan)[..ids] + levels[ids..]
  }

  lemma PartlyEnds(levels: seq<seq<Chunk>>, plan: seq<LevelPlan>)
    requires Applies(levels, plan)
    ensures Partly(levels, plan, 0) == levels
    ensures Partly(levels, plan, |levels|) == Apply(levels, plan)
  {
  }

  lemma PartlyNext(levels: seq<seq<Chunk>>, plan: seq<LevelPlan>, ids: nat)
    requires Applies(levels, plan) && ids < |levels|
    ensures plan[ids].npop <= |levels[ids]|
    ensures Partly(levels, plan, ids)[ids] == levels[ids]
    ensures Partly(levels, plan, ids + 1) == Partly(levels, plan, ids)[ids := ApplyLevel(levels[ids], plan[ids])]
  {
    ApplyAt(levels, plan, ids);
  }

  datatype Verdict = Room | DropOldest | Cascade(merged: Chunk) | Bad(failure: Failure)

  /** What a verdict on one level means for the plan from there on. */
  predicate Judged(levels: seq<seq<Chunk>>, caps: seq<nat>, ids: nat, c: Chunk, nrf: nat,
                   oldest: Option<Chunk>, next: Option<Chunk>, verdict: Verdict)
    requires |levels| == |caps| && ids < |levels|
    requires Roomy(caps)
    requires MasksShaped(levels[ids..], nrf) && MasksShaped(levels[ids + 1..], nrf)
    requires Roomy(caps[ids..]) && Roomy(caps[ids + 1..])
  {
    var rest := MakePlan(levels[ids..], caps[ids..], ids, c, nrf);
    match verdict
    case Room => rest == Ready([LevelPlan(0, Some(c))] + Idle(|levels| - ids - 1))
    case DropOldest => oldest.Some? && ids == |levels| - 1 && rest == Ready([LevelPlan(1, Some(c))] + Idle(0))
    case Bad(e) => rest == Failed(e)
    case Cascade(m) =>
      && oldest.Some? && next.Some? && ids + 1 < |levels|
      && var sub := MakePlan(levels[ids + 1..], caps[ids + 1..], ids + 1, m, nrf);
      rest == if sub.Failed? then sub else Ready([LevelPlan(2, Some(c))] + sub.plan)
  }

  /**
    The lists are complete above level `ids` and blank below it: the overall plan is what has been listed so far,
    then the plan for handing the chunk in pushlist[ids] to the remaining levels.
  */
  predicate Underway(levels: seq<seq<Chunk>>, caps: seq<nat>, nrf: nat, c: Chunk, pushlist: Slots, poplist: Slots, ids: nat) {
    && |levels| == |caps| == |pushlist| && |poplist| == 2 * |pushlist| && ids < |levels|
    && Roomy(caps) && Roomy(caps[ids..])
    && MasksShaped(levels, nrf) && MasksShaped(levels[ids..], nrf)
    && BlankFrom(pushlist, poplist, ids) && pushlist[ids].Some?
    && Continues(MakePlan(levels, caps, 0, c, nrf), MakePlan(levels[ids..], caps[ids..], ids, pushlist[ids].value, nrf),
                 ListedPlan(pushlist, poplist), ids)
  }

  predicate Continues(whole: Planned, rest: Planned, listed: seq<LevelPlan>, ids: nat) {
    && ids <= |listed|
    && (rest.Failed? ==> whole == rest)
    && (rest.Ready? ==> whole == Ready(listed[..ids] + rest.plan))
  }

  /** Nothing is listed below level `ids`, and nothing is popped from it yet. */
  predicate BlankFrom(pushlist: Slots, poplist: Slots, ids: nat) {
    && (forall k :: ids < k < |pushlist| ==> pushlist[k].None?)
    && (forall k :: 2 * ids <= k < |poplist| ==> poplist[k].None?)
  }

  lemma UnderwayFirst(levels: seq<seq<Chunk>>, caps: seq<nat>, nrf: nat, c: Chunk, pushlist: Slots, poplist: Slots)
    requires |levels| == |caps| > 0 && Roomy(caps)
    requires MasksShaped(levels, nrf)
    requires pushlist == seq(|caps|, _ => None)[0 := Some(c)] && poplist == seq(2 * |caps|, _ => None)
    ensures Underway(levels, caps, nrf, c, pushlist, poplist, 0)
  {
    assert levels[0..] == levels && caps[0..] == caps;
    assert ListedPlan(pushlist, poplist)[..0] == [];
  }

  /** One level of the plan. */
  lemma PlanUnfolds(levels: seq<seq<Chunk>>, caps: seq<nat>, ids: nat, c: Chunk, nrf: nat)
    requires |levels| == |caps| && ids < |levels|
    requires Roomy(caps[ids..]) && MasksShaped(levels[ids..], nrf)
    ensures Roomy(caps[ids + 1..]) && MasksShaped(levels[ids + 1..], nrf)
    ensures LevelShaped(levels[ids], nrf)
    ensures var rest := MakePlan(levels[ids..], caps[ids..], ids, c, nrf);
            var level := levels[ids];
            if |level| < caps[ids] then rest == Ready([LevelPlan(0, Some(c))] + Idle(|levels| - ids - 1))
            else if ids == |levels| - 1 then
              rest == if nrf > 0 && level[0].mask.None? then Failed(MaskNotReady) else Ready([LevelPlan(1, Some(c))])
            else if nrf > 0 && (level[0].mask.None? || level[1].mask.None?) then rest == Failed(MaskNotReady)
            else if Pow2(ids + 1) > 8 then rest == Failed(BinningTooLarge)
            else if level[0].binning != level[1].binning || level[1].ichunk != level[0].ichunk + level[1].binning
                    || Pow2(ids + 1) != 2 * level[0].binning then rest == Failed(NotConsecutive)
            else
              && (nrf > 0 ==> |level[0].mask.value| == |level[1].mask.value|)
              && var sub := MakePlan(levels[ids + 1..], caps[ids + 1..], ids + 1, Merge(level[0], level[1], nrf), nrf);
              rest == if sub.Failed? then sub else Ready([LevelPlan(2, Some(c))] + sub.plan)
  {
    var tail, tailCaps := levels[ids..], caps[ids..];
    assert tail[0] == levels[ids] && tailCaps[0] == caps[ids];
    assert tail[1..] == levels[ids + 1..] && tailCaps[1..] == caps[ids + 1..];
    if |levels[ids]| >= 2 {
      assert ChunkMaskShaped(levels[ids][0], nrf) && ChunkMaskShaped(levels[ids][1], nrf);
    }
  }

  /** The cascade ends at level `ids`, popping `npop` chunks there: the lists are the whole plan. */
  lemma StopsHere(levels: seq<seq<Chunk>>, caps: seq<nat>, nrf: nat, c: Chunk, pushlist: Slots, poplist: Slots,
                  after: Slots, ids: nat, npop: nat)
    requires Underway(levels, caps, nrf, c, pushlist, poplist, ids)
    requires |after| == |poplist| && forall k :: 0 <= k < |after| && k != 2 * ids ==> after[k] == poplist[k]
    requires npop == (if after[2 * ids].Some? then 1 else 0)
    requires MakePlan(levels[ids..], caps[ids..], ids, pushlist[ids].value, nrf) ==
             Ready([LevelPlan(npop, pushlist[ids])] + Idle(|levels| - ids - 1))
    ensures MakePlan(levels, caps, 0, c, nrf) == Ready(ListedPlan(pushlist, after))
  {
    var listed, rest := ListedPlan(pushlist, poplist), [LevelPlan(npop, pushlist[ids])] + Idle(|pushlist| - ids - 1);
    hide MakePlan, MasksShaped, Roomy, Idle;
    forall k | 0 <= k < |pushlist| ensures (listed[..ids] + rest)[k] == ListedPlan(pushlist, after)[k] {
      if k > ids { IdleAt(|pushlist| - ids - 1, k - ids - 1); }
    }
    assert listed[..ids] + rest == ListedPlan(pushlist, after);
  }

  /** The cascade goes on to the next level. */
  lemma GoesOn(levels: seq<seq<Chunk>>, caps: seq<nat>, nrf: nat, c: Chunk, pushlist: Slots, poplist: Slots,
               oldest: Option<Chunk>, next: Option<Chunk>, merged: Chunk, ids: nat)
    requires Underway(levels, caps, nrf, c, pushlist, poplist, ids)
    requires MasksShaped(levels[ids + 1..], nrf) && Roomy(caps[ids + 1..])
    requires Judged(levels, caps, ids, pushlist[ids].value, nrf, oldest, next, Cascade(merged))
    ensures ids + 1 < |levels|
    ensures Underway(levels, caps, nrf, c, pushlist[ids + 1 := Some(merged)],
                     poplist[2 * ids := oldest][2 * ids + 1 := next], ids + 1)
  {
    var pushes, pops := pushlist[ids + 1 := Some(merged)], poplist[2 * ids := oldest][2 * ids + 1 := next];
    ContinuesOn(MakePlan(levels, caps, 0, c, nrf), MakePlan(levels[ids..], caps[ids..], ids, pushlist[ids].value, nrf),
                MakePlan(levels[ids + 1..], caps[ids + 1..], ids + 1, merged, nrf),
                ListedPlan(pushlist, poplist), ListedPlan(pushes, pops), pushlist[ids], ids);
  }

  lemma ContinuesOn(whole: Planned, rest: Planned, sub: Planned, before: seq<LevelPlan>, after: seq<LevelPlan>,
                    push: Option<Chunk>, ids: nat)
    requires Continues(whole, rest, before, ids) && ids < |after|
    requires rest == if sub.Failed? then sub else Ready([LevelPlan(2, push)] + sub.plan)
    requires after[ids] == LevelPlan(2, push) && after[..ids] == before[..ids]
    ensures Continues(whole, sub, after, ids + 1)
  {
    if sub.Ready? {
      assert after[..ids + 1] == after[..ids] + [after[ids]];
      assert before[..ids] + ([after[ids]] + sub.plan) == after[..ids + 1] + sub.plan;
    }
  }

  lemma EntryAt(slots: Slots, pos: nat, chunks: seq<Chunk>, k: nat)
    requires Holds(slots, pos, chunks) && k < |chunks|
    ensures slots[Wrap(pos + k, |slots|)] == Some(chunks[k])
  {
    assert slots[Slot(pos, k, |slots|)] == Some(chunks[k]);
  }
}
