/**
  Whole calls of the assembler thread, run without interruption, as machine steps: a packet is its arrival and the
  commit of the push it may cause; the end of a stream is two pushes and the closing.  Each is given explicitly and
  proved to be what the machine does.
*/
module RingCalls {
  import opened Options
  import opened RingMachine
  import opened RingTheorems
  import opened Telescope
  import opened TelescopeLaws

  /** The assembler part of the machine after a push, when the window has moved but the packet is not placed yet. */
  function Advanced(cfg: Config, a: Assembly, c: Chunk): Assembly
    requires a.active1.Some?
  {
    Moved(a).(queued := a.queued + 1, maxFlushed := FpgaEnd(cfg, c))
  }

  /** Level sizes, mask shapes and active chunks are such that a push can be planned and applied. */
  predicate Pushable(cfg: Config, s: State) {
    && Plannable(cfg, s.ring.levels)
    && (forall l :: 0 <= l < |s.ring.levels| ==> |s.ring.levels[l]| <= cfg.caps[l])
    && (s.asm.active0.Some? ==> s.asm.active0.value.content.Raw? && s.asm.active1.Some?)
    && (s.asm.active1.Some? ==> s.asm.active1.value.content.Raw?)
  }

  /** What a packet for chunk `ichunk` does to a state with an open window, including the push it may cause. */
  function PacketResult(cfg: Config, t: State, ichunk: nat): State
    requires Pushable(cfg, t)
  {
    if t.asm.active0.None? || t.asm.active1.None? then t
    else if ichunk < t.asm.active0.value.ichunk + 2 then t.(asm := Place(t.asm, ichunk))
    else
      var u := Shifted(cfg, t);
      if u.asm.active0.None? || u.asm.active1.None? then u else u.(asm := Place(u.asm, ichunk))
  }

  /** The older active chunk is pushed and the window moves on; if the push fails, that chunk is lost. */
  function Shifted(cfg: Config, t: State): State
    requires Pushable(cfg, t) && t.asm.active0.Some?
  {
    var c := t.asm.active0.value;
    match MakePlan(t.ring.levels, cfg.caps, 0, c, cfg.nrf)
    case Failed(_) => t.(asm := t.asm.(active0 := None, pc := Resting))
    case Ready(plan) =>
      var ring := Store(cfg, t.ring, c, plan);
      State(ring, Catchup(cfg, ring, t.ds), Advanced(cfg, t.asm, c))
  }

  /** The packet step of the machine and, if the packet begins a push, the commit step: one call with no other thread in between. */
  function Dealt(cfg: Config, s: State, ichunk: nat, truth: nat -> Mask): State {
    Settled(cfg, Take(cfg, s, StepArrive(ichunk), truth), truth)
  }

  function Settled(cfg: Config, s: State, truth: nat -> Mask): State {
    if s.asm.pc.Pushing? then Take(cfg, s, StepCommit, truth) else s
  }

  lemma SettledReachable(cfg: Config, s: State, truth: nat -> Mask)
    requires Reachable(cfg, s, truth)
    ensures Reachable(cfg, Settled(cfg, s, truth), truth)
  {
    StepReachable(cfg, s, StepCommit, truth);
  }

  /** What committing needs is there whenever a push is pending. */
  lemma PendingIsCommittable(cfg: Config, s: State, truth: nat -> Mask)
    requires GoodConfig(cfg) && TruthShaped(truth, cfg.nrf) && Reachable(cfg, s, truth) && s.asm.pc.Pushing?
    ensures Committable(cfg, s) && Plannable(cfg, Store(cfg, s.ring, s.asm.pc.chunk, s.asm.pc.plan).levels)
  {
    ReachableInv(cfg, s, truth);
    CommitKeeps(cfg, s, truth);
  }

  lemma StartsReady(cfg: Config, s: State, ichunk: nat, truth: nat -> Mask)
    requires GoodConfig(cfg) && TruthShaped(truth, cfg.nrf) && Reachable(cfg, s, truth) && s.asm.pc.Resting?
    ensures Pushable(cfg, Start(cfg, s, ichunk)) && Pushable(cfg, s)
  {
    ReachableInv(cfg, s, truth);
    StartKeeps(cfg, s, ichunk, truth);
    ReadyForPush(cfg, Start(cfg, s, ichunk), truth);
    ReadyForPush(cfg, s, truth);
  }

  /** The explicit result is the result of the machine. */
  lemma PacketResultIsDealt(cfg: Config, s: State, ichunk: nat, truth: nat -> Mask)
    requires GoodConfig(cfg) && TruthShaped(truth, cfg.nrf) && Reachable(cfg, s, truth) && s.asm.pc.Resting?
    requires Pushable(cfg, Start(cfg, s, ichunk)) && Pushable(cfg, s)
    ensures PacketResult(cfg, Start(cfg, s, ichunk), ichunk) == Dealt(cfg, s, ichunk, truth)
    ensures Reachable(cfg, Dealt(cfg, s, ichunk, truth), truth) && Dealt(cfg, s, ichunk, truth).asm.pc.Resting?
  {
    var t, u := Start(cfg, s, ichunk), Take(cfg, s, StepArrive(ichunk), truth);
    StepReachable(cfg, s, StepArrive(ichunk), truth);
    SettledReachable(cfg, u, truth);
    assert u == t.(asm := Receive(cfg, t.ring.levels, t.asm, ichunk));
    if u.asm.pc.Pushing? {
      PendingIsCommittable(cfg, u, truth);
      FarPacket(cfg, t, u, ichunk);
    } else {
      NearPacket(cfg, t, ichunk);
    }
  }

  lemma NearPacket(cfg: Config, t: State, ichunk: nat)
    requires Pushable(cfg, t) && t.asm.started
    requires !Receive(cfg, t.ring.levels, t.asm, ichunk).pc.Pushing? && t.asm.pc.Resting?
    ensures PacketResult(cfg, t, ichunk) == t.(asm := Receive(cfg, t.ring.levels, t.asm, ichunk))
    ensures Receive(cfg, t.ring.levels, t.asm, ichunk).pc.Resting?
  {
  }

  /** End of stream: both active chunks are pushed, then the flag is raised; a push that fails ends the attempt. */
  function Ended(cfg: Config, s: State, truth: nat -> Mask): State {
    var u := Settled(cfg, Settled(cfg, Take(cfg, s, StepEnd, truth), truth), truth);
    if u.asm.pc.Closing? then Take(cfg, u, StepClose, truth) else u
  }

  /** After the first of the two pushes. */
  function HalfEnded(cfg: Config, t: State): State
    requires Pushable(cfg, t) && t.asm.active0.Some?
  {
    var u := Shifted(cfg, t);
    if u.asm.active0.None? then u else u.(asm := u.asm.(active0 := None, active1 := t.asm.active1))
  }

  /** After the second. */
  function FullyEnded(cfg: Config, h: State, fin: nat): State
    requires Pushable(cfg, h) && h.asm.active1.Some?
  {
    var c := h.asm.active1.value;
    match MakePlan(h.ring.levels, cfg.caps, 0, c, cfg.nrf)
    case Failed(_) => h.(asm := h.asm.(active1 := None))
    case Ready(plan) =>
      var ring := Store(cfg, h.ring, c, plan);
      State(ring, Catchup(cfg, ring, h.ds),
            h.asm.(active1 := None, queued := h.asm.queued + 1, maxFlushed := FpgaEnd(cfg, c), done := true, finalFpga := fin))
  }

  /** Both pushes. */
  function EndResult(cfg: Config, s: State): State
    requires EndReady(cfg, s)
  {
    if s.asm.active0.None? then s
    else if Shifted(cfg, s).asm.active0.None? then Shifted(cfg, s)
    else FullyEnded(cfg, HalfEnded(cfg, s), FpgaAt(cfg, s.asm.active0.value.ichunk + 2))
  }

  predicate EndReady(cfg: Config, s: State) {
    Pushable(cfg, s) && (s.asm.active0.Some? && Shifted(cfg, s).asm.active0.Some? ==> Pushable(cfg, HalfEnded(cfg, s)))
  }

  lemma FirstPushFails(cfg: Config, t: State)
    requires Pushable(cfg, t) && t.asm.pc.Resting? && t.asm.active0.Some?
    ensures End(cfg, t).asm.pc.Pushing? <==> Shifted(cfg, t).asm.active0.Some?
    ensures !End(cfg, t).asm.pc.Pushing? ==> End(cfg, t) == Shifted(cfg, t) && End(cfg, t).asm.pc.Resting?
  {
  }

  lemma FirstPush(cfg: Config, t: State, v: State)
    requires Pushable(cfg, t) && t.asm.pc.Resting? && t.asm.active0.Some?
    requires v == End(cfg, t) && v.asm.pc.Pushing?
    requires Committable(cfg, v) && Plannable(cfg, Store(cfg, v.ring, v.asm.pc.chunk, v.asm.pc.plan).levels)
    ensures SecondBegins(cfg, HalfEnded(cfg, t), Commit(cfg, v), FpgaAt(cfg, t.asm.active0.value.ichunk + 2))
  {
    assert v.asm.pc == Pushing(t.asm.active0.value, MakePlan(t.ring.levels, cfg.caps, 0, t.asm.active0.value, cfg.nrf).plan,
                               ThenLast(FpgaAt(cfg, t.asm.active0.value.ichunk + 2)));
    assert HalfEnded(cfg, t).ring == Commit(cfg, v).ring;
  }

  predicate SecondBegins(cfg: Config, h: State, w: State, fin: nat) {
    && Plannable(cfg, h.ring.levels) && h.asm.active1.Some?
    && w == h.(asm := Begin(cfg, h.ring.levels, h.asm.(active1 := None), h.asm.active1.value, ThenClose(fin)))
    && h.asm.pc.Resting?
  }

  lemma SecondPush(cfg: Config, h: State, w: State, fin: nat)
    requires Pushable(cfg, h) && SecondBegins(cfg, h, w, fin)
    ensures !w.asm.pc.Pushing? ==> FullyEnded(cfg, h, fin) == w && w.asm.pc.Resting?
    ensures w.asm.pc.Pushing? && Committable(cfg, w) && Plannable(cfg, Store(cfg, w.ring, w.asm.pc.chunk, w.asm.pc.plan).levels)
            ==> Commit(cfg, w).asm.pc.Closing? && FullyEnded(cfg, h, fin) == Close(Commit(cfg, w))
  {
  }

  lemma HalfIsPushable(cfg: Config, h: State, w: State, fin: nat, truth: nat -> Mask)
    requires GoodConfig(cfg) && TruthShaped(truth, cfg.nrf) && Reachable(cfg, w, truth)
    requires SecondBegins(cfg, h, w, fin) && h.asm.active0.None? && h.asm.active1.value.content.Raw?
    ensures Pushable(cfg, h)
  {
    ReachableInv(cfg, w, truth);
    ShapeAll(w.ring.levels, cfg.caps, 0);
  }

  /** The explicit result of ending a stream is that of the machine. */
  lemma EndResultIsEnded(cfg: Config, s: State, truth: nat -> Mask)
    requires GoodConfig(cfg) && TruthShaped(truth, cfg.nrf) && Reachable(cfg, s, truth) && s.asm.pc.Resting?
    requires Pushable(cfg, s)
    ensures Reachable(cfg, Ended(cfg, s, truth), truth) && Ended(cfg, s, truth).asm.pc.Resting?
    ensures EndReady(cfg, s) && EndResult(cfg, s) == Ended(cfg, s, truth)
  {
    var v := Take(cfg, s, StepEnd, truth);
    var w := Settled(cfg, v, truth);
    var u := Settled(cfg, w, truth);
    StepReachable(cfg, s, StepEnd, truth);
    SettledReachable(cfg, v, truth);
    SettledReachable(cfg, w, truth);
    StepReachable(cfg, u, StepClose, truth);
    if s.asm.active0.Some? {
      FirstPushFails(cfg, s);
      if v.asm.pc.Pushing? {
        PendingIsCommittable(cfg, v, truth);
        FirstPush(cfg, s, v);
        var h, fin := HalfEnded(cfg, s), FpgaAt(cfg, s.asm.active0.value.ichunk + 2);
        HalfIsPushable(cfg, h, w, fin, truth);
        SecondPush(cfg, h, w, fin);
        if w.asm.pc.Pushing? { PendingIsCommittable(cfg, w, truth); }
      }
    }
  }

  /** Both closing pushes can be planned: the first as things are, the second after the first. */
  predicate Closable(cfg: Config, levels: seq<seq<Chunk>>, a: Assembly) {
    && a.active0.Some? && a.active1.Some? && Plannable(cfg, levels)
    && var first := MakePlan(levels, cfg.caps, 0, a.active0.value, cfg.nrf);
    first.Ready? && Plannable(cfg, Apply(levels, first.plan))
    && MakePlan(Apply(levels, first.plan), cfg.caps, 0, a.active1.value, cfg.nrf).Ready?
  }

  /**
    Ending a stream raises the flag if and only if there is a window and both of its chunks can be pushed, one after the
    other.  In particular it does not before the first packet.
  */
  lemma EndsRegularlyIff(cfg: Config, s: State, truth: nat -> Mask)
    requires GoodConfig(cfg) && TruthShaped(truth, cfg.nrf) && Reachable(cfg, s, truth) && s.asm.pc.Resting?
    ensures Ended(cfg, s, truth).asm.done <==> s.asm.done || Closable(cfg, s.ring.levels, s.asm)
    ensures s.asm.done || !s.asm.started ==> s.asm.active0.None?
    ensures Reachable(cfg, Ended(cfg, s, truth), truth) && Ended(cfg, s, truth).asm.pc.Resting?
  {
    StartsReady(cfg, s, 0, truth);
    EndResultIsEnded(cfg, s, truth);
    ReachableInv(cfg, s, truth);
    ActiveIsRaw(cfg, s.ring, s.asm);
    hide Inv, Ended, Reachable, GoodConfig, TruthShaped;
    EndResultDone(cfg, s);
  }

  lemma EndResultDone(cfg: Config, s: State)
    requires EndReady(cfg, s) && (s.asm.active0.Some? ==> !s.asm.done)
    ensures EndResult(cfg, s).asm.done <==> s.asm.done || Closable(cfg, s.ring.levels, s.asm)
  {
    if s.asm.active0.Some? && Shifted(cfg, s).asm.active0.Some? {
      var plan := MakePlan(s.ring.levels, cfg.caps, 0, s.asm.active0.value, cfg.nrf).plan;
      assert HalfEnded(cfg, s).ring.levels == Apply(s.ring.levels, plan);
    }
  }

  lemma ActiveIsRaw(cfg: Config, r: Ring, a: Assembly)
    requires WindowInv(cfg, r, a) && a.pc.Resting?
    ensures a.active0.Some? ==> a.active0.value.content.Raw? && a.active1.Some?
    ensures a.active1.Some? ==> a.active1.value.content.Raw? && !a.done && a.started
  {
  }

  lemma FarPacket(cfg: Config, t: State, u: State, ichunk: nat)
    requires Pushable(cfg, t) && t.asm.pc.Resting? && t.asm.active0.Some? && t.asm.active1.Some?
    requires u == t.(asm := Receive(cfg, t.ring.levels, t.asm, ichunk)) && u.asm.pc.Pushing?
    requires Committable(cfg, u) && Plannable(cfg, Store(cfg, u.ring, u.asm.pc.chunk, u.asm.pc.plan).levels)
    ensures ichunk >= t.asm.active0.value.ichunk + 2
    ensures var c := t.asm.active0.value;
            && MakePlan(t.ring.levels, cfg.caps, 0, c, cfg.nrf).Ready?
            && var ring := Store(cfg, t.ring, c, MakePlan(t.ring.levels, cfg.caps, 0, c, cfg.nrf).plan);
            Commit(cfg, u) == State(ring, Catchup(cfg, ring, t.ds), Place(Advanced(cfg, t.asm, c), ichunk))
  {
    hide MakePlan, Plannable, Applies, Apply, FpgaEnd;
  }

  lemma ReadyForPush(cfg: Config, s: State, truth: nat -> Mask)
    requires Inv(cfg, s, truth) && s.asm.pc.Resting?
    ensures Pushable(cfg, s)
  {
    PlannableInv(cfg, s.ring, truth);
    ShapeAll(s.ring.levels, cfg.caps, 0);
    ActiveIsRaw(cfg, s.ring, s.asm);
  }

  lemma ActiveNotDone(cfg: Config, s: State, truth: nat -> Mask)
    requires GoodConfig(cfg) && TruthShaped(truth, cfg.nrf) && Reachable(cfg, s, truth) && s.asm.pc.Resting?
    ensures s.asm.active1.Some? ==> !s.asm.done
  {
    ReachableInv(cfg, s, truth);
    ActiveIsRaw(cfg, s.ring, s.asm);
  }

  lemma TakeReady(cfg: Config, s: State, truth: nat -> Mask)
    requires GoodConfig(cfg) && TruthShaped(truth, cfg.nrf) && Reachable(cfg, s, truth)
    ensures s.ring.levels != [] && s.ring.pos0 <= s.ds.down
  {
    ReachableInv(cfg, s, truth);
  }

  // ------------------------------------------------------------------------------------------------
  // What the calls achieve

  /**
    One packet on a live window: it is logged once, and the window moves by one chunk exactly when the packet is
    two or more chunks ahead and the push succeeds.  It is a hit exactly when it falls in the (moved) window.
  */
  lemma OnePacketOneStep(cfg: Config, s: State, p: nat, truth: nat -> Mask)
    requires GoodConfig(cfg) && TruthShaped(truth, cfg.nrf) && Reachable(cfg, s, truth)
    requires s.asm.pc.Resting? && s.asm.active0.Some?
    ensures Plannable(cfg, s.ring.levels)
    ensures var t := Dealt(cfg, s, p, truth);
            var far := p >= Head(s.ring) + 2;
            var moved := far && MakePlan(s.ring.levels, cfg.caps, 0, s.asm.active0.value, cfg.nrf).Ready?;
            && Head(t.ring) == Head(s.ring) + (if moved then 1 else 0)
            && (!far || moved ==> t.asm.log == s.asm.log + [Event(p, Head(t.ring) <= p <= Head(t.ring) + 1)])
            && (far && !moved ==> t.asm.log == s.asm.log && t.asm.active0.None?)
  {
    StartsReady(cfg, s, p, truth);
    ActiveStarted(cfg, s, truth);
    PacketResultIsDealt(cfg, s, p, truth);
    PacketMoves(cfg, s, p, Head(s.ring));
  }

  lemma ActiveStarted(cfg: Config, s: State, truth: nat -> Mask)
    requires GoodConfig(cfg) && TruthShaped(truth, cfg.nrf) && Reachable(cfg, s, truth)
    requires s.asm.pc.Resting? && s.asm.active0.Some?
    ensures s.asm.started && !s.asm.done && s.asm.active1.Some?
    ensures s.asm.active0.value.ichunk == Head(s.ring) && s.asm.active1.value.ichunk == Head(s.ring) + 1
  {
    ReachableInv(cfg, s, truth);
    WindowIs(cfg, s.ring, s.asm);
  }

  lemma WindowIs(cfg: Config, r: Ring, a: Assembly)
    requires WindowInv(cfg, r, a) && a.pc.Resting? && a.active0.Some?
    ensures a.started && !a.done && a.active1.Some?
    ensures a.active0.value.ichunk == Head(r) && a.active1.value.ichunk == Head(r) + 1
  {
  }

  lemma PacketMoves(cfg: Config, t: State, p: nat, head: nat)
    requires Pushable(cfg, t) && t.asm.active0.Some? && head == Head(t.ring)
    requires t.asm.active0.value.ichunk == head && t.asm.active1.value.ichunk == head + 1
    ensures var u := PacketResult(cfg, t, p);
            var far := p >= head + 2;
            var moved := far && MakePlan(t.ring.levels, cfg.caps, 0, t.asm.active0.value, cfg.nrf).Ready?;
            && Head(u.ring) == head + (if moved then 1 else 0)
            && (!far || moved ==> u.asm.log == t.asm.log + [Event(p, Head(u.ring) <= p <= Head(u.ring) + 1)])
            && (far && !moved ==> u.asm.log == t.asm.log && u.asm.active0.None?)
  {
  }

  /** If a stream ends normally, the last two chunks are the two that were active, in order, and nothing is lost. */
  lemma EndPushesBoth(cfg: Config, s: State, truth: nat -> Mask)
    requires GoodConfig(cfg) && TruthShaped(truth, cfg.nrf) && Reachable(cfg, s, truth)
    requires s.asm.pc.Resting? && s.asm.active0.Some?
    ensures Pushable(cfg, s)
    ensures var u := Ended(cfg, s, truth);
            u.asm.done ==>
              && Head(u.ring) == Head(s.ring) + 2
              && u.ring.history == s.ring.history + [s.asm.active0.value.content.hits, s.asm.active1.value.content.hits]
              && u.asm.finalFpga == FpgaAt(cfg, Head(u.ring))
  {
    StartsReady(cfg, s, 0, truth);
    ActiveStarted(cfg, s, truth);
    EndResultIsEnded(cfg, s, truth);
    BothPushed(cfg, s, Head(s.ring));
  }

  lemma BothPushed(cfg: Config, s: State, head: nat)
    requires EndReady(cfg, s) && s.asm.active0.Some? && !s.asm.done && head == Head(s.ring)
    requires s.asm.active0.value.ichunk == head
    ensures var u := EndResult(cfg, s);
            u.asm.done ==>
              && Head(u.ring) == head + 2
              && u.ring.history == s.ring.history + [s.asm.active0.value.content.hits, s.asm.active1.value.content.hits]
              && u.asm.finalFpga == FpgaAt(cfg, Head(u.ring))
  {
    var a, b := s.asm.active0.value.content.hits, s.asm.active1.value.content.hits;
    assert (s.ring.history + [a]) + [b] == s.ring.history + [a, b];
  }

  // ------------------------------------------------------------------------------------------------
  // Other threads do not spoil the end of a stream

  /** Chunks that a plan removes have their masks, so filling a mask commutes with a push. */
  lemma FillCommutes(cfg: Config, levels: seq<seq<Chunk>>, k: nat, c: Chunk, plan: seq<LevelPlan>, truth: nat -> Mask)
    requires Plannable(cfg, levels) && MakePlan(levels, cfg.caps, 0, c, cfg.nrf) == Ready(plan)
    requires Applies(FillLevels(cfg.nrf, levels, k, truth), plan) && |levels[0]| <= cfg.caps[0]
    ensures var n := plan[0].npop;
            Apply(FillLevels(cfg.nrf, levels, k, truth), plan)
            == if k < n then Apply(levels, plan) else FillTop(cfg.nrf, Apply(levels, plan), k - n, |levels[0]| - n, truth)
  {
    var n := plan[0].npop;
    if FillLevels(cfg.nrf, levels, k, truth) != levels {
      PoppedAreMasked(cfg, levels, k, c, plan);
      var filled := levels[0][k].(mask := Some(truth(levels[0][k].ichunk)));
      assert Apply(levels, plan)[0] == levels[0][n..] + [c];
      hide MakePlan, Plannable;
      ApplyTop(levels, plan, levels[0][k := filled]);
      FillAt(levels[0], n, k, c, filled);
    }
  }

  lemma PoppedAreMasked(cfg: Config, levels: seq<seq<Chunk>>, k: nat, c: Chunk, plan: seq<LevelPlan>)
    requires Plannable(cfg, levels) && MakePlan(levels, cfg.caps, 0, c, cfg.nrf) == Ready(plan)
    requires k < |levels[0]| && levels[0][k].mask.None? && cfg.nrf > 0
    ensures plan[0].npop <= k && plan[0].push == Some(c)
  {
  }

  lemma ApplyTop(levels: seq<seq<Chunk>>, plan: seq<LevelPlan>, top: seq<Chunk>)
    requires levels != [] && Applies(levels, plan) && |top| == |levels[0]|
    ensures Applies(levels[0 := top], plan)
    ensures Apply(levels[0 := top], plan) == Apply(levels, plan)[0 := ApplyLevel(top, plan[0])]
  {
    assert levels[0 := top][1..] == levels[1..];
  }

  lemma FillAt(level: seq<Chunk>, n: nat, k: nat, c: Chunk, filled: Chunk)
    requires n <= k < |level|
    ensures level[k := filled][n..] + [c] == (level[n..] + [c])[k - n := filled]
  {
  }

  /** Fills the mask of entry k of level 0 if it is one of the first `size`. */
  function FillTop(nrf: nat, levels: seq<seq<Chunk>>, k: nat, size: nat, truth: nat -> Mask): seq<seq<Chunk>> {
    if k < size then FillLevels(nrf, levels, k, truth) else levels
  }

  lemma ClosableSurvivesFill(cfg: Config, levels: seq<seq<Chunk>>, a: Assembly, k: nat, truth: nat -> Mask)
    requires Closable(cfg, levels, a) && TruthShaped(truth, cfg.nrf) && GoodConfig(cfg)
    requires |levels[0]| <= cfg.caps[0]
    ensures Closable(cfg, FillLevels(cfg.nrf, levels, k, truth), a)
  {
    var plan := MakePlan(levels, cfg.caps, 0, a.active0.value, cfg.nrf).plan;
    PlanSurvivesFill(cfg, levels, k, a.active0.value, plan, truth);
    FillCommutes(cfg, levels, k, a.active0.value, plan, truth);
    var next, n := Apply(levels, plan), plan[0].npop;
    assert next[0] == levels[0][n..] + [a.active0.value];
    hide FillLevels, MakePlan, Applies, Plannable, Apply;
    if n <= k < |levels[0]| {
      var second := MakePlan(next, cfg.caps, 0, a.active1.value, cfg.nrf).plan;
      PlanSurvivesFill(cfg, next, k - n, a.active1.value, second, truth);
    }
  }

  /** Whatever the other threads do, a stream that can be ended regularly still can. */
  lemma ClosableSurvives(cfg: Config, s: State, step: Step, truth: nat -> Mask)
    requires GoodConfig(cfg) && TruthShaped(truth, cfg.nrf) && Reachable(cfg, s, truth)
    requires (step.StepGet? || step.StepFill?) && Closable(cfg, s.ring.levels, s.asm)
    ensures var t := Take(cfg, s, step, truth); Closable(cfg, t.ring.levels, t.asm)
  {
    ReachableInv(cfg, s, truth);
    ShapeAll(s.ring.levels, cfg.caps, 0);
    hide Closable, Inv, FillLevels;
    if step.StepFill? { ClosableSurvivesFill(cfg, s.ring.levels, s.asm, step.k, truth); }
  }
}
