/**
  Concrete runs: a stream whose every packet lies far enough ahead to ask for one push, and what it shows.
*/
module RingRuns {
  import opened Options
  import opened RingCalls
  import opened RingMachine
  import opened RingTheorems
  import opened Telescope
  import opened TelescopeLaws

  predicate Live(s: State, pushed: nat) {
    s.asm.pc.Resting? && s.asm.active0.Some? && |s.ring.history| == pushed
  }

  lemma FirstPacket(cfg: Config, truth: nat -> Mask)
    requires GoodConfig(cfg) && TruthShaped(truth, cfg.nrf)
    ensures var s := Dealt(cfg, Initial(cfg), 0, truth);
            Reachable(cfg, s, truth) && Live(s, 0) && s.ring.levels == NoLevels(|cfg.caps|)
  {
    var s := Initial(cfg);
    InitialReachable(cfg, truth);
    StartsReady(cfg, s, 0, truth);
    PacketResultIsDealt(cfg, s, 0, truth);
    OpensWindow(cfg);
  }

  lemma OpensWindow(cfg: Config)
    requires Pushable(cfg, Start(cfg, Initial(cfg), 0))
    ensures Live(PacketResult(cfg, Start(cfg, Initial(cfg), 0), 0), 0)
    ensures PacketResult(cfg, Start(cfg, Initial(cfg), 0), 0).ring.levels == NoLevels(|cfg.caps|)
  {
  }

  lemma WindowHead(cfg: Config, r: Ring, a: Assembly)
    requires WindowInv(cfg, r, a) && a.pc.Resting? && a.active0.Some?
    ensures a.active0.value.binning == 1 && a.active0.value.mask.None?
  {
  }

  /** If the push can be planned, the next packet of the stream makes it. */
  lemma ReadyPacket(cfg: Config, s: State, n: nat, truth: nat -> Mask)
    requires GoodConfig(cfg) && TruthShaped(truth, cfg.nrf) && Reachable(cfg, s, truth) && Live(s, n)
    requires Plannable(cfg, s.ring.levels) && MakePlan(s.ring.levels, cfg.caps, 0, s.asm.active0.value, cfg.nrf).Ready?
    ensures var t := Dealt(cfg, s, Head(s.ring) + 2, truth);
            && Reachable(cfg, t, truth) && Live(t, n + 1)
            && t.ring.levels == Apply(s.ring.levels, MakePlan(s.ring.levels, cfg.caps, 0, s.asm.active0.value, cfg.nrf).plan)
  {
    var p := Head(s.ring) + 2;
    StartsReady(cfg, s, p, truth);
    ActiveStarted(cfg, s, truth);
    PacketResultIsDealt(cfg, s, p, truth);
    OnePush(cfg, s, p);
  }

  lemma OnePush(cfg: Config, s: State, p: nat)
    requires Pushable(cfg, s) && s.asm.started && s.asm.active0.Some? && s.asm.active1.Some?
    requires p >= s.asm.active0.value.ichunk + 2
    requires MakePlan(s.ring.levels, cfg.caps, 0, s.asm.active0.value, cfg.nrf).Ready?
    ensures var t := PacketResult(cfg, Start(cfg, s, p), p);
            && t.asm.active0.Some? && |t.ring.history| == |s.ring.history| + 1
            && t.ring.levels == Apply(s.ring.levels, MakePlan(s.ring.levels, cfg.caps, 0, s.asm.active0.value, cfg.nrf).plan)
  {
  }

  // ------------------------------------------------------------------------------------------------
  // The size report is wrong in every configuration

  lemma RoomForOne(cfg: Config, s: State, n: nat, truth: nat -> Mask)
    requires GoodConfig(cfg) && TruthShaped(truth, cfg.nrf) && Reachable(cfg, s, truth) && Live(s, n)
    requires s.ring.levels != [] && cfg.caps != [] && |s.ring.levels[0]| < cfg.caps[0]
    ensures var t := Dealt(cfg, s, Head(s.ring) + 2, truth);
            && Reachable(cfg, t, truth) && Live(t, n + 1)
            && t.ring.levels != [] && |t.ring.levels[0]| == |s.ring.levels[0]| + 1
  {
    ReachableInv(cfg, s, truth);
    PlannableInv(cfg, s.ring, truth);
    PlanOfRoom(s.ring.levels, cfg.caps, 0, s.asm.active0.value, cfg.nrf);
    ReadyPacket(cfg, s, n, truth);
  }

  /** After three packets level 0 holds two chunks, and what is reported as its last FPGA count is not. */
  lemma LevelMaxIsWrong(cfg: Config, truth: nat -> Mask) returns (s: State)
    requires GoodConfig(cfg) && TruthShaped(truth, cfg.nrf)
    ensures Reachable(cfg, s, truth) && s.ring.levels != [] && |s.ring.levels[0]| == 2
    ensures ReportedLevelMax(cfg, s.ring.levels[0]) < FpgaEnd(cfg, s.ring.levels[0][1])
  {
    hide Dealt, Reachable, Live, Initial, Head, TruthShaped, NoLevels;
    FirstPacket(cfg, truth);
    RoomyAll(cfg.caps);
    var a := Dealt(cfg, Initial(cfg), 0, truth);
    RoomForOne(cfg, a, 0, truth);
    var b := Dealt(cfg, a, Head(a.ring) + 2, truth);
    RoomForOne(cfg, b, 1, truth);
    s := Dealt(cfg, b, Head(b.ring) + 2, truth);
    hide FpgaEnd, ReportedLevelMax, GoodConfig;
    ReachableInv(cfg, s, truth);
    ReportIsEarly(cfg, s.ring, truth);
  }

  lemma ReportIsEarly(cfg: Config, r: Ring, truth: nat -> Mask)
    requires RingInv(cfg, r, truth) && |r.levels[0]| == 2
    ensures ReportedLevelMax(cfg, r.levels[0]) < FpgaEnd(cfg, r.levels[0][1])
  {
    LevelIsContiguous(cfg, r, truth, 0);
    CountsGrow(NT * cfg.fpgaPerSample, r.levels[0][0].ichunk + 1, r.levels[0][1].ichunk + 1);
  }
}
