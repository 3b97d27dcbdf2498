/**
  Ring buffers that are configured with more than four levels.  The constructor accepts them, but no chunk ever gets
  below the fourth level: a stream that is long enough runs into a push that fails.
*/
module DeepRings {
  import opened Options
  import opened RingCalls
  import opened RingMachine
  import opened RingRuns
  import opened RingTheorems
  import opened Telescope
  import opened TelescopeLaws

  // ------------------------------------------------------------------------------------------------
  // Nothing gets below the fourth level

  predicate DeepEmpty(r: Ring) {
    r.evicted == 0 && forall l :: 4 <= l < |r.levels| ==> r.levels[l] == []
  }

  lemma {:induction false} IdleStays(n: nat, k: nat)
    requires k < n
    ensures Idle(n)[k] == LevelPlan(0, None)
  {
    if k > 0 { IdleStays(n - 1, k - 1); }
  }

  /** A plan leaves everything below the fourth level alone, unless that is where the chunk itself goes. */
  lemma {:induction false} DeepPlanIsIdle(levels: seq<seq<Chunk>>, caps: seq<nat>, ids: nat, c: Chunk, nrf: nat, k: nat)
    requires |levels| == |caps| > 0 && Roomy(caps) && MasksShaped(levels, nrf)
    requires MakePlan(levels, caps, ids, c, nrf).Ready?
    requires 1 <= k < |levels| && ids + k >= 4
    ensures MakePlan(levels, caps, ids, c, nrf).plan[k] == LevelPlan(0, None)
    decreases |levels|
  {
    if |levels[0]| < caps[0] {
      IdleStays(|levels| - 1, k - 1);
    } else {
      var a, b := levels[0][0], levels[0][1];
      assert ChunkMaskShaped(a, nrf) && ChunkMaskShaped(b, nrf);
      if ids >= 3 { BeyondEight(ids + 1); }
      DeepPlanIsIdle(levels[1..], caps[1..], ids + 1, Merge(a, b, nrf), nrf, k - 1);
    }
  }

  lemma {:induction false} BeyondEight(n: nat)
    requires n >= 4
    ensures Pow2(n) > 8
  {
    if n == 4 {
      assert Pow2(1) == 2 && Pow2(2) == 4 && Pow2(3) == 8;
    } else {
      BeyondEight(n - 1);
    }
  }

  lemma StoreKeepsDeepEmpty(cfg: Config, r: Ring, c: Chunk, plan: seq<LevelPlan>)
    requires PushingInto(cfg, r, c, plan) && Applicable(r, plan) && |cfg.caps| > 4 && DeepEmpty(r)
    ensures DeepEmpty(Store(cfg, r, c, plan))
  {
    var t := Store(cfg, r, c, plan);
    forall l | 4 <= l < |t.levels| ensures t.levels[l] == [] {
      DeepPlanIsIdle(r.levels, cfg.caps, 0, c, cfg.nrf, l);
      ApplyAt(r.levels, plan, l);
    }
    if AllFull(r.levels, cfg.caps) {
      AllFullAt(r.levels, cfg.caps, 4);
      RoomyAll(cfg.caps);
    }
  }

  lemma StepKeepsDeepEmpty(cfg: Config, s: State, step: Step, truth: nat -> Mask)
    requires Inv(cfg, s, truth) && TruthShaped(truth, cfg.nrf) && |cfg.caps| > 4 && DeepEmpty(s.ring)
    ensures DeepEmpty(Take(cfg, s, step, truth).ring)
  {
    if step.StepCommit? && Enabled(s, step) {
      CommitKeeps(cfg, s, truth);
      StoreKeepsDeepEmpty(cfg, s.ring, s.asm.pc.chunk, s.asm.pc.plan);
      hide Inv, Store, Plannable, DeepEmpty;
    } else {
      OtherKeepsDeepEmpty(cfg, s, step, truth);
    }
  }

  lemma OtherKeepsDeepEmpty(cfg: Config, s: State, step: Step, truth: nat -> Mask)
    requires DeepEmpty(s.ring) && !(step.StepCommit? && Enabled(s, step))
    ensures DeepEmpty(Take(cfg, s, step, truth).ring)
  {
    hide Plannable, Begin, Receive, FirstChunk, FpgaAt, FpgaEnd, Committable;
  }

  lemma {:induction false} RunKeepsDeepEmpty(cfg: Config, s: State, steps: seq<Step>, truth: nat -> Mask)
    requires Inv(cfg, s, truth) && TruthShaped(truth, cfg.nrf) && |cfg.caps| > 4 && DeepEmpty(s.ring)
    ensures DeepEmpty(Run(cfg, s, steps, truth).ring)
    decreases |steps|
  {
    if steps != [] {
      StepKeeps(cfg, s, steps[0], truth);
      StepKeepsDeepEmpty(cfg, s, steps[0], truth);
      RunKeepsDeepEmpty(cfg, Take(cfg, s, steps[0], truth), steps[1..], truth);
    }
  }

  /** What the first four levels hold when they are full, in chunks of level 0. */
  function FirstFour(caps: seq<nat>): nat
    requires |caps| >= 4
  {
    caps[0] + 2 * caps[1] + 4 * caps[2] + 8 * caps[3]
  }

  lemma {:induction false} NothingBelow(levels: seq<seq<Chunk>>, ids: nat)
    requires forall l :: 0 <= l < |levels| ==> levels[l] == []
    ensures Total(levels, ids) == 0
  {
    if levels != [] { NothingBelow(levels[1..], ids + 1); }
  }

  lemma TotalOfFirstFour(levels: seq<seq<Chunk>>, caps: seq<nat>)
    requires Shape(levels, caps, 0) && |levels| > 4
    requires forall l :: 4 <= l < |levels| ==> levels[l] == []
    ensures Total(levels, 0) <= FirstFour(caps)
  {
    ShapeAll(levels, caps, 0);
    assert Pow2(1) == 2 && Pow2(2) == 4 && Pow2(3) == 8;
    var a, b, c := levels[1..], levels[2..], levels[3..];
    assert a[1..] == b && b[1..] == c && c[1..] == levels[4..];
    assert Total(levels, 0) == |levels[0]| * 1 + Total(a, 1);
    assert Total(a, 1) == |a[0]| * 2 + Total(b, 2);
    assert Total(b, 2) == |b[0]| * 4 + Total(c, 3);
    assert Total(c, 3) == |c[0]| * 8 + Total(levels[4..], 4);
    NothingBelow(levels[4..], 4);
  }

  /** However long the stream: no more chunks are ever pushed than fill the first four levels, and none is evicted. */
  lemma DeepBufferHoldsLittle(cfg: Config, s: State, truth: nat -> Mask)
    requires GoodConfig(cfg) && TruthShaped(truth, cfg.nrf) && |cfg.caps| > 4
    requires Reachable(cfg, s, truth)
    ensures |s.ring.history| <= FirstFour(cfg.caps) && DeepEmpty(s.ring)
  {
    InitialInv(cfg, truth);
    var steps :| Run(cfg, Initial(cfg), steps, truth) == s;
    RunKeepsDeepEmpty(cfg, Initial(cfg), steps, truth);
    ReachableInv(cfg, s, truth);
    BufferIsOneSpan(cfg, s.ring, truth);
    TotalOfFirstFour(s.ring.levels, cfg.caps);
  }

  // ------------------------------------------------------------------------------------------------
  // A stream that runs into it

  /**
    A stream of packets, each two chunks ahead of the last chunk pushed: every packet asks for one push.  If masks are
    kept, that of the pushed chunk is filled before the next packet comes.
  */
  function Fed(cfg: Config, n: nat, truth: nat -> Mask): State {
    if n == 0 then Dealt(cfg, Initial(cfg), 0, truth)
    else
      var s := Fed(cfg, n - 1, truth);
      NewestFilled(cfg, Dealt(cfg, s, Head(s.ring) + 2, truth), truth)
  }

  function NewestFilled(cfg: Config, s: State, truth: nat -> Mask): State {
    if s.ring.levels == [] || s.ring.levels[0] == [] then s
    else Take(cfg, s, StepFill(|s.ring.levels[0]| - 1), truth)
  }

  /** The oldest active chunk cannot be pushed. */
  predicate PushFails(cfg: Config, s: State, reason: Failure) {
    && Plannable(cfg, s.ring.levels) && s.asm.pc.Resting? && s.asm.active0.Some?
    && MakePlan(s.ring.levels, cfg.caps, 0, s.asm.active0.value, cfg.nrf) == Failed(reason)
  }

  /** The masks that the next push needs are there, or none are kept. */
  predicate MasksReady(cfg: Config, levels: seq<seq<Chunk>>) {
    cfg.nrf == 0 || (|levels| == |cfg.caps| && Roomy(cfg.caps) && MasksInTime(levels, cfg.caps))
  }

  /**
    A push of a reachable state succeeds if and only if the masks it needs are there and it is not too deep; with the
    masks there depth makes it fail for its binning, and nothing else ever does.
  */
  lemma PushReadyIff(cfg: Config, s: State, truth: nat -> Mask)
    requires GoodConfig(cfg) && TruthShaped(truth, cfg.nrf) && Reachable(cfg, s, truth)
    requires s.asm.pc.Resting? && s.asm.active0.Some?
    ensures Plannable(cfg, s.ring.levels)
    ensures MakePlan(s.ring.levels, cfg.caps, 0, s.asm.active0.value, cfg.nrf).Ready? <==>
            MasksReady(cfg, s.ring.levels) && !TooDeep(s.ring.levels, cfg.caps, 0)
    ensures MasksReady(cfg, s.ring.levels) && TooDeep(s.ring.levels, cfg.caps, 0) ==> PushFails(cfg, s, BinningTooLarge)
    ensures PushFails(cfg, s, BinningTooLarge) ==> TooDeep(s.ring.levels, cfg.caps, 0)
  {
    ReachableInv(cfg, s, truth);
    PlannableInv(cfg, s.ring, truth);
    WindowIs(cfg, s.ring, s.asm);
    WindowHead(cfg, s.ring, s.asm);
    hide MakePlan, TooDeep, Reachable, WindowInv, LogInv, FlushInv, DownstreamInv, RingInv, Head, Plannable, MasksReady;
    RingReadyIff(cfg, s.ring, s.asm.active0.value, truth);
  }

  lemma RingReadyIff(cfg: Config, r: Ring, c: Chunk, truth: nat -> Mask)
    requires RingInv(cfg, r, truth) && Plannable(cfg, r.levels)
    requires c.ichunk == Head(r) && c.binning == 1 && c.mask.None?
    ensures MakePlan(r.levels, cfg.caps, 0, c, cfg.nrf).Ready? <==> MasksReady(cfg, r.levels) && !TooDeep(r.levels, cfg.caps, 0)
    ensures MasksReady(cfg, r.levels) && TooDeep(r.levels, cfg.caps, 0) ==>
              MakePlan(r.levels, cfg.caps, 0, c, cfg.nrf) == Failed(BinningTooLarge)
    ensures MakePlan(r.levels, cfg.caps, 0, c, cfg.nrf) == Failed(BinningTooLarge) ==> TooDeep(r.levels, cfg.caps, 0)
  {
    assert Pow2(0) == 1;
    hide MakePlan, TooDeep, MasksMean, MasksInTime;
    PlanReadyIff(r.levels, cfg.caps, 0, c, cfg.nrf, r.first + r.evicted, Head(r));
  }

  // Masks that are filled at once

  predicate TopMasked(cfg: Config, levels: seq<seq<Chunk>>) {
    cfg.nrf > 0 && levels != [] ==> forall i :: 0 <= i < |levels[0]| ==> levels[0][i].mask.Some?
  }

  lemma TopMaskedIsReady(cfg: Config, r: Ring, truth: nat -> Mask)
    requires RingInv(cfg, r, truth) && TopMasked(cfg, r.levels)
    ensures MasksReady(cfg, r.levels)
  {
    ShapeAll(r.levels, cfg.caps, 0);
    RoomyAll(cfg.caps);
    if cfg.nrf > 0 {
      forall k | 0 <= k < |r.levels| && Reaches(r.levels, cfg.caps, k) ensures OldestMasked(r.levels, k) {
        MasksMeanAt(r.levels, 0, truth, cfg.nrf, k);
        assert |r.levels[k]| >= cfg.caps[k];
      }
    }
  }

  /** A push appends to level 0; filling the mask of what was appended leaves level 0 masked. */
  lemma FillNewest(cfg: Config, before: seq<seq<Chunk>>, plan: seq<LevelPlan>, c: Chunk, truth: nat -> Mask)
    requires before != [] && TopMasked(cfg, before) && Applies(before, plan) && plan[0].push == Some(c)
    ensures var after := Apply(before, plan);
            && after != [] && after[0] != []
            && TopMasked(cfg, FillLevels(cfg.nrf, after, |after[0]| - 1, truth))
  {
    var after := Apply(before, plan);
    assert after[0] == before[0][plan[0].npop..] + [c];
  }

  lemma NextPacket(cfg: Config, s: State, n: nat, truth: nat -> Mask)
    requires GoodConfig(cfg) && TruthShaped(truth, cfg.nrf) && Reachable(cfg, s, truth)
    requires Live(s, n) && TopMasked(cfg, s.ring.levels) && !PushFails(cfg, s, BinningTooLarge)
    ensures var t := NewestFilled(cfg, Dealt(cfg, s, Head(s.ring) + 2, truth), truth);
            Reachable(cfg, t, truth) && Live(t, n + 1) && TopMasked(cfg, t.ring.levels)
  {
    ReachableInv(cfg, s, truth);
    TopMaskedIsReady(cfg, s.ring, truth);
    hide MasksReady, TooDeep, TopMasked, Inv, RingInv, Reachable, Dealt, MakePlan;
    PushReadyIff(cfg, s, truth);
    ReadyPacket(cfg, s, n, truth);
    var plan := MakePlan(s.ring.levels, cfg.caps, 0, s.asm.active0.value, cfg.nrf).plan;
    var u := Dealt(cfg, s, Head(s.ring) + 2, truth);
    hide PushFails, NewestFilled, Live, Head;
    NewestIsFilled(cfg, u, n + 1, s.ring.levels, plan, s.asm.active0.value, truth);
  }

  lemma NewestIsFilled(cfg: Config, u: State, n: nat, before: seq<seq<Chunk>>, plan: seq<LevelPlan>, c: Chunk, truth: nat -> Mask)
    requires Reachable(cfg, u, truth) && Live(u, n)
    requires before != [] && TopMasked(cfg, before) && Applies(before, plan) && plan[0].push == Some(c)
    requires u.ring.levels == Apply(before, plan)
    ensures var t := NewestFilled(cfg, u, truth); Reachable(cfg, t, truth) && Live(t, n) && TopMasked(cfg, t.ring.levels)
  {
    FillNewest(cfg, before, plan, c, truth);
    hide Reachable, TopMasked, Apply, Applies;
    StepReachable(cfg, u, StepFill(|u.ring.levels[0]| - 1), truth);
  }

  /** Either every packet so far has pushed a chunk, or a state was reached in which the push fails. */
  lemma {:induction false} FeedUntilFailure(cfg: Config, n: nat, truth: nat -> Mask) returns (bad: Option<State>)
    requires GoodConfig(cfg) && TruthShaped(truth, cfg.nrf)
    ensures bad.None? ==>
              var s := Fed(cfg, n, truth); Reachable(cfg, s, truth) && Live(s, n) && TopMasked(cfg, s.ring.levels)
    ensures bad.Some? ==> Reachable(cfg, bad.value, truth) && PushFails(cfg, bad.value, BinningTooLarge)
  {
    hide Dealt, Reachable, Live, PushFails, Initial, Head, GoodConfig, TruthShaped, NewestFilled;
    if n == 0 {
      FirstPacket(cfg, truth);
      bad := None;
    } else {
      hide TopMasked;
      bad := FeedUntilFailure(cfg, n - 1, truth);
      if bad.None? {
        var s := Fed(cfg, n - 1, truth);
        if PushFails(cfg, s, BinningTooLarge) {
          bad := Some(s);
        } else {
          NextPacket(cfg, s, n - 1, truth);
        }
      }
    }
  }

  /** Every configuration with more than four levels, with masks or without, reaches a state whose push fails. */
  lemma DeepBufferFails(cfg: Config, truth: nat -> Mask) returns (s: State)
    requires GoodConfig(cfg) && TruthShaped(truth, cfg.nrf) && |cfg.caps| > 4
    ensures Reachable(cfg, s, truth) && PushFails(cfg, s, BinningTooLarge)
  {
    var n := FirstFour(cfg.caps) + 1;
    var bad := FeedUntilFailure(cfg, n, truth);
    if bad.None? {
      DeepBufferHoldsLittle(cfg, Fed(cfg, n, truth), truth);
      assert false;
    }
    s := bad.value;
  }

  /** With at most four levels no push ever fails for its binning: only a missing mask makes it fail. */
  lemma ShallowBufferNeverFails(cfg: Config, s: State, truth: nat -> Mask)
    requires GoodConfig(cfg) && TruthShaped(truth, cfg.nrf) && |cfg.caps| <= 4
    requires Reachable(cfg, s, truth) && s.asm.pc.Resting? && s.asm.active0.Some?
    ensures Plannable(cfg, s.ring.levels) && !PushFails(cfg, s, BinningTooLarge)
    ensures MakePlan(s.ring.levels, cfg.caps, 0, s.asm.active0.value, cfg.nrf).Ready? <==> MasksReady(cfg, s.ring.levels)
  {
    PushReadyIff(cfg, s, truth);
  }

  /** So without masks and with at most four levels every live stream can be ended regularly. */
  lemma ShallowCloses(cfg: Config, s: State, truth: nat -> Mask)
    requires GoodConfig(cfg) && TruthShaped(truth, cfg.nrf) && |cfg.caps| <= 4 && cfg.nrf == 0
    requires Reachable(cfg, s, truth) && s.asm.pc.Resting? && s.asm.active0.Some?
    ensures Closable(cfg, s.ring.levels, s.asm)
  {
    ShallowBufferNeverFails(cfg, s, truth);
    ReachableInv(cfg, s, truth);
    hide Reachable, DownstreamInv, LogInv, FlushInv, RingInv, MakePlan, Plannable, PushFails;
    ShallowSecond(cfg, s.ring, s.asm, truth);
  }

  lemma ShallowSecond(cfg: Config, r: Ring, a: Assembly, truth: nat -> Mask)
    requires RingInv(cfg, r, truth) && WindowInv(cfg, r, a) && a.pc.Resting? && a.active0.Some?
    requires |cfg.caps| <= 4 && cfg.nrf == 0
    requires Plannable(cfg, r.levels) && MakePlan(r.levels, cfg.caps, 0, a.active0.value, cfg.nrf).Ready?
    ensures Closable(cfg, r.levels, a)
  {
    var c, plan := a.active0.value, MakePlan(r.levels, cfg.caps, 0, a.active0.value, cfg.nrf).plan;
    assert PushingInto(cfg, r, c, plan);
    var d := a.active1.value;
    assert d.ichunk == Head(r) + 1 && d.binning == 1 && d.mask.None?;
    hide MakePlan, RingInv, WindowInv, Plannable, Head;
    StoreKeeps(cfg, r, c, plan, truth);
    var t := Store(cfg, r, c, plan);
    PlannableInv(cfg, t, truth);
    RingReadyIff(cfg, t, d, truth);
  }

  /** The constructor accepts such a configuration: five levels of two chunks, and one more chunk at the top. */
  lemma FiveLevelsAreAccepted() returns (cfg: Config, s: State)
    ensures Configure(1, [2, 2, 2, 2, 2], 0, 0, 384) == Accepted(cfg)
    ensures Reachable(cfg, s, _ => []) && PushFails(cfg, s, BinningTooLarge)
  {
    cfg := Configure(1, [2, 2, 2, 2, 2], 0, 0, 384).config;
    s := DeepBufferFails(cfg, _ => []);
  }
}
