/**
  How the assembler thread ends: after the network thread has gone and the last packet has been judged, it ends the
  streams of all beams in turn.  When this succeeds, whatever the other threads do meanwhile, and when it throws.
*/
module RegularEnds {
  import opened BeamAssembly
  import opened BeamSplit
  import D = DeepRings
  import M = RingMachine
  import opened PacketFormat
  import opened RingCalls
  import opened RingTheorems
  import T = Telescope
  import opened UdpPipeline

  // ------------------------------------------------------------------------------------------------
  // Which ring buffers are live, and which have ended

  /** Beams are ended in order; one that has not been is live once it has had a packet. */
  predicate BeamPhase(w: Work, ix: nat, r: M.State) {
    if w.Pushing? && w.ix == ix then true
    else if (w.Ending? && ix < w.ix) || w == Finished then r.asm.done
    else !r.asm.done && (r.asm.started ==> Fine(r))
  }

  predicate Phased(a: Assembler) {
    a.work != Crashed ==> forall ix :: 0 <= ix < |a.beams| ==> BeamPhase(a.work, ix, a.beams[ix])
  }

  /** A step that leaves the ring buffers alone and ends none of them. */
  lemma SamePhases(a: Assembler, b: Assembler)
    requires Phased(a) && a.work != Crashed && !a.work.Pushing? && b.beams == a.beams
    requires b.work == Crashed || a.work == b.work
             || (!a.work.Ending? && a.work != Finished && !b.work.Pushing? && b.work != Finished && (b.work.Ending? ==> b.work.ix == 0))
    ensures Phased(b)
  {
    if b.work != Crashed {
      forall ix | 0 <= ix < |b.beams| ensures BeamPhase(b.work, ix, b.beams[ix]) {
        assert BeamPhase(a.work, ix, a.beams[ix]);
      }
    }
  }

  /** A step that changes one ring buffer. */
  lemma OnePhase(a: Assembler, b: Assembler, ix: nat)
    requires Phased(a) && a.work != Crashed && (a.work.Pushing? ==> a.work.ix == ix)
    requires ix < |a.beams| == |b.beams| && b.beams == a.beams[ix := b.beams[ix]]
    requires b.work != Finished && (b.work.Pushing? ==> b.work.ix == ix) && BeamPhase(b.work, ix, b.beams[ix])
    requires (!a.work.Ending? && a.work != Finished && !b.work.Ending?)
             || (a.work.Ending? && a.work.ix == ix && b.work == Ending(ix + 1))
    ensures Phased(b)
  {
    forall j | 0 <= j < |b.beams| ensures BeamPhase(b.work, j, b.beams[j]) {
      assert BeamPhase(a.work, j, a.beams[j]);
    }
  }

  /** A ring buffer with an open window has not ended. */
  lemma FineIsLive(cfg: M.Config, r: M.State, truth: nat -> T.Mask)
    requires M.GoodConfig(cfg) && M.TruthShaped(truth, cfg.nrf) && Reachable(cfg, r, truth) && Fine(r)
    ensures !r.asm.done
  {
    ActiveNotDone(cfg, r, truth);
  }

  lemma DealtPhase(cfg: Config, a: Assembler, p: Packet, ib: nat, ix: nat, part: Packet, t: M.State,
                   truth: nat -> T.Mask)
    requires Phased(a) && (a.work.Splitting? || (a.work.Pushing? && a.work.ix == ix)) && ix < |a.beams| == |a.parts|
    requires M.GoodConfig(cfg.shape.rings) && M.TruthShaped(truth, cfg.shape.rings.nrf) && Reachable(cfg.shape.rings, t, truth)
    ensures Phased(Dealing(cfg, a, p, ib, ix, part, t))
  {
    hide Reachable;
    var b := Dealing(cfg, a, p, ib, ix, part, t);
    if Fine(t) { FineIsLive(cfg.shape.rings, t, truth); }
    if b.work != Crashed { OnePhase(a, b, ix); }
  }

  lemma DealPhased(cfg: Config, truths: Truths, s: State)
    requires ValidConfig(cfg) && ValidTruths(cfg, truths) && BeamsInv(cfg, truths, s.asm) && Phased(s.asm)
    requires Enabled(cfg, s, DealBeam)
    ensures Phased(Step(cfg, s, DealBeam, truths).asm)
  {
    hide StreamPacket, PartOfBeam, PartsLogged, Phased, ChunkOf, Dealing, BeamPart, Reachable, Fine;
    var p, ib := s.asm.work.packet, s.asm.work.ib;
    var part := BeamPart(p, ib);
    var ix := FirstMatch(cfg.shape.beamIds, part.beamIds[0]);
    if ix == |cfg.shape.beamIds| {
      SamePhases(s.asm, Step(cfg, s, DealBeam, truths).asm);
    } else {
      assert BeamInv(cfg, truths, s.asm, ix);
      var ichunk := ChunkOf(cfg.shape, part);
      ArriveOutcome(cfg.shape.rings, s.asm.beams[ix], ichunk, truths[ix]);
      hide M.Take;
      DealtPhase(cfg, s.asm, p, ib, ix, part, M.Take(cfg.shape.rings, s.asm.beams[ix], M.StepArrive(ichunk), truths[ix]), truths[ix]);
    }
  }

  lemma CommitPhased(cfg: Config, truths: Truths, s: State)
    requires ValidConfig(cfg) && ValidTruths(cfg, truths) && BeamsInv(cfg, truths, s.asm) && Phased(s.asm)
    requires Enabled(cfg, s, CommitPush)
    ensures Phased(Step(cfg, s, CommitPush, truths).asm)
  {
    hide StreamPacket, PartOfBeam, PartsLogged, Phased, ChunkOf, Dealing, BeamPart, Reachable, Fine, M.Take;
    var p, ib, ix := s.asm.work.packet, s.asm.work.ib, s.asm.work.ix;
    assert BeamInv(cfg, truths, s.asm, ix);
    CommitOutcome(cfg.shape.rings, s.asm.beams[ix], truths[ix]);
    DealtPhase(cfg, s.asm, p, ib, ix, BeamPart(p, ib), M.Take(cfg.shape.rings, s.asm.beams[ix], M.StepCommit, truths[ix]), truths[ix]);
  }

  /** Ending one beam: it is ended if both chunks of its window can be pushed, and otherwise the thread dies. */
  lemma EndBeamIff(cfg: Config, truths: Truths, s: State)
    requires ValidConfig(cfg) && ValidTruths(cfg, truths) && BeamsInv(cfg, truths, s.asm) && Phased(s.asm)
    requires s.asm.work.Ending? && s.asm.work.ix < |s.asm.beams|
    ensures Enabled(cfg, s, EndBeam)
    ensures var ix, t := s.asm.work.ix, Step(cfg, s, EndBeam, truths);
            && Phased(t.asm) && t.asm.beams == s.asm.beams[ix := t.asm.beams[ix]]
            && t.asm.work == if Closable(cfg.shape.rings, s.asm.beams[ix].ring.levels, s.asm.beams[ix].asm) then Ending(ix + 1) else Crashed
  {
    hide PartsLogged, Reachable, Closable, Ended, Phased;
    var ix, t := s.asm.work.ix, Step(cfg, s, EndBeam, truths);
    assert BeamInv(cfg, truths, s.asm, ix);
    assert BeamPhase(s.asm.work, ix, s.asm.beams[ix]) by { PhaseOf(s.asm, ix); }
    EndOutcome(cfg.shape.rings, s.asm.beams[ix], truths[ix]);
    if t.asm.work != Crashed { OnePhase(s.asm, t.asm, ix); } else { CrashedPhased(t.asm); }
  }

  lemma PhaseOf(a: Assembler, ix: nat)
    requires Phased(a) && a.work != Crashed && ix < |a.beams|
    ensures BeamPhase(a.work, ix, a.beams[ix])
  {
  }

  lemma CrashedPhased(a: Assembler)
    requires a.work == Crashed
    ensures Phased(a)
  {
  }

  lemma AllEnded(a: Assembler, b: Assembler)
    requires Phased(a) && a.work == Ending(|a.beams|) && b.beams == a.beams && b.work == Finished
    ensures Phased(b)
  {
    forall ix | 0 <= ix < |b.beams| ensures BeamPhase(b.work, ix, b.beams[ix]) {
      assert BeamPhase(a.work, ix, a.beams[ix]);
    }
  }

  lemma OtherPhased(cfg: Config, truths: Truths, s: State, ix: nat, step: M.Step)
    requires ValidConfig(cfg) && ValidTruths(cfg, truths) && BeamsInv(cfg, truths, s.asm) && Phased(s.asm)
    requires Enabled(cfg, s, Other(ix, step))
    ensures Phased(Step(cfg, s, Other(ix, step), truths).asm)
  {
    hide PartsLogged, Reachable, M.Take, InHand;
    assert BeamInv(cfg, truths, s.asm, ix);
    OtherOutcome(cfg.shape.rings, s.asm.beams[ix], step, truths[ix]);
    var a, b := s.asm, Step(cfg, s, Other(ix, step), truths).asm;
    forall j | 0 <= j < |b.beams| ensures BeamPhase(b.work, j, b.beams[j]) {
      assert BeamPhase(a.work, j, a.beams[j]);
    }
  }

  lemma StepPhased(cfg: Config, truths: Truths, s: State, a: Action)
    requires ValidConfig(cfg) && ValidTruths(cfg, truths) && Inv(cfg, truths, s) && Phased(s.asm) && Enabled(cfg, s, a)
    ensures Phased(Step(cfg, s, a, truths).asm)
  {
    hide Books, BeamsInv, Flags, Phased, InHand, Full;
    match a
    case DealBeam => hide Step; DealPhased(cfg, truths, s);
    case CommitPush => hide Step; CommitPhased(cfg, truths, s);
    case Other(ix, step) => hide Step; OtherPhased(cfg, truths, s, ix, step);
    case EndBeam =>
      if s.asm.work.ix < |s.asm.beams| {
        hide Step; EndBeamIff(cfg, truths, s);
      } else {
        AllEnded(s.asm, Step(cfg, s, a, truths).asm);
      }
    case JudgePacket =>
      JudgeCases(cfg, s.asm);
      hide JudgeFirst;
      SamePhases(s.asm, Step(cfg, s, a, truths).asm);
    case TakeList => SamePhases(s.asm, Step(cfg, s, a, truths).asm);
    case AssemblerCounts => SamePhases(s.asm, Step(cfg, s, a, truths).asm);
    case BeginEnd => SamePhases(s.asm, Step(cfg, s, a, truths).asm);
    case _ => hide PutList; assert Step(cfg, s, a, truths).asm == s.asm;
  }

  lemma {:induction false} RunPhased(cfg: Config, truths: Truths, actions: seq<Action>)
    requires ValidConfig(cfg) && ValidTruths(cfg, truths)
    ensures Phased(Run(cfg, truths, actions).asm)
  {
    hide Inv, Step, Enabled;
    if actions == [] {
      StartsPhased(cfg);
    } else {
      var s, a := Run(cfg, truths, actions[..|actions| - 1]), actions[|actions| - 1];
      RunPhased(cfg, truths, actions[..|actions| - 1]);
      RunKeeps(cfg, truths, actions[..|actions| - 1]);
      hide Phased;
      if Enabled(cfg, s, a) { StepPhased(cfg, truths, s, a); }
    }
  }

  lemma StartsPhased(cfg: Config)
    ensures Phased(Initial(cfg).asm)
  {
  }

  /** A regular end: every beam's stream has been ended. */
  lemma FinishedMeansAllEnded(cfg: Config, truths: Truths, actions: seq<Action>)
    requires ValidConfig(cfg) && ValidTruths(cfg, truths) && Run(cfg, truths, actions).asm.work == Finished
    ensures forall ix :: 0 <= ix < |Run(cfg, truths, actions).asm.beams| ==> Run(cfg, truths, actions).asm.beams[ix].asm.done
  {
    RunPhased(cfg, truths, actions);
    var a := Run(cfg, truths, actions).asm;
    hide Run;
    forall ix | 0 <= ix < |a.beams| ensures a.beams[ix].asm.done {
      PhaseOf(a, ix);
    }
  }

  // ------------------------------------------------------------------------------------------------
  // When the end is regular

  predicate Closes(cfg: Config, r: M.State) {
    Closable(cfg.shape.rings, r.ring.levels, r.asm)
  }

  function CountEnds(actions: seq<Action>): nat {
    if actions == [] then 0
    else CountEnds(actions[..|actions| - 1]) + if actions[|actions| - 1] == EndBeam then 1 else 0
  }

  /** After k calls: on its way with all remaining beams closable, or finished. */
  predicate OnItsWay(cfg: Config, a: Assembler, k: nat) {
    if k <= |a.beams| then a.work == Ending(k) && forall ix :: k <= ix < |a.beams| ==> Closes(cfg, a.beams[ix])
    else a.work == Finished
  }

  lemma OnItsWayStep(cfg: Config, truths: Truths, s: State, a: Action, k: nat)
    requires ValidConfig(cfg) && ValidTruths(cfg, truths) && Inv(cfg, truths, s) && Phased(s.asm) && OnItsWay(cfg, s.asm, k)
    ensures var t := if Enabled(cfg, s, a) then Step(cfg, s, a, truths) else s;
            OnItsWay(cfg, t.asm, if a == EndBeam then k + 1 else k)
  {
    hide Books, InHand, Phased, PartsLogged, Full, Closable, Reachable, PutList;
    match a
    case EndBeam =>
      if k < |s.asm.beams| { hide Step; EndBeamIff(cfg, truths, s); }
    case Other(ix, step) =>
      if Enabled(cfg, s, a) {
        assert BeamInv(cfg, truths, s.asm, ix);
        hide M.Take;
        if Closes(cfg, s.asm.beams[ix]) { ClosableSurvives(cfg.shape.rings, s.asm.beams[ix], step, truths[ix]); }
      }
    case _ =>
  }

  lemma {:induction false} ClosableEnds(cfg: Config, truths: Truths, actions: seq<Action>, more: seq<Action>)
    requires ValidConfig(cfg) && ValidTruths(cfg, truths) && OnItsWay(cfg, Run(cfg, truths, actions).asm, 0)
    ensures OnItsWay(cfg, Run(cfg, truths, actions + more).asm, CountEnds(more))
    decreases |more|
  {
    if more == [] {
      assert actions + more == actions;
    } else {
      var before, a := more[..|more| - 1], more[|more| - 1];
      hide Run, Inv, Phased, OnItsWay, Step, Enabled;
      ClosableEnds(cfg, truths, actions, before);
      OneMoreAction(cfg, truths, actions, more);
      RunKeeps(cfg, truths, actions + before);
      RunPhased(cfg, truths, actions + before);
      OnItsWayStep(cfg, truths, Run(cfg, truths, actions + before), a, CountEnds(before));
    }
  }

  lemma OneMoreAction(cfg: Config, truths: Truths, actions: seq<Action>, more: seq<Action>)
    requires |truths| == |cfg.shape.beamIds| && more != []
    ensures var a, s := more[|more| - 1], Run(cfg, truths, actions + more[..|more| - 1]);
            Run(cfg, truths, actions + more) == if Enabled(cfg, s, a) then Step(cfg, s, a, truths) else s
  {
    hide Enabled, Step, Run;
    assert (actions + more)[..|actions + more| - 1] == actions + more[..|more| - 1];
    LastAction(cfg, truths, actions + more);
  }

  /** The thread has died, or will at the latest at beam ix, which cannot be closed; fills could help only if it is live. */
  predicate Blocked(cfg: Config, a: Assembler, ix: nat, fills: bool) {
    a.work == Crashed
    || (a.work.Ending? && a.work.ix <= ix < |a.beams| && !Closes(cfg, a.beams[ix]) && (fills ==> !a.beams[ix].asm.started))
  }

  lemma BlockedStep(cfg: Config, truths: Truths, s: State, a: Action, ix: nat, fills: bool)
    requires ValidConfig(cfg) && ValidTruths(cfg, truths) && Inv(cfg, truths, s) && Phased(s.asm)
    requires Blocked(cfg, s.asm, ix, fills) && Enabled(cfg, s, a) && (fills || !IsFill(a))
    ensures Blocked(cfg, Step(cfg, s, a, truths).asm, ix, fills)
  {
    hide Books, InHand, Phased, PartsLogged, Full, Closable, Reachable, PutList;
    match a
    case EndBeam => hide Step; EndBeamIff(cfg, truths, s);
    case Other(j, step) =>
      assert BeamInv(cfg, truths, s.asm, j);
      var r, t := s.asm.beams[j], M.Take(cfg.shape.rings, s.asm.beams[j], step, truths[j]);
      OtherOutcome(cfg.shape.rings, r, step, truths[j]);
      if step.StepGet? { assert t.ring.levels == r.ring.levels; }
      hide M.Take;
      if !t.asm.started { EndOutcome(cfg.shape.rings, t, truths[j]); }
    case _ =>
  }

  predicate IsFill(a: Action) { a.Other? && a.step.StepFill? }

  lemma {:induction false} BlockedStays(cfg: Config, truths: Truths, actions: seq<Action>, more: seq<Action>, ix: nat, fills: bool)
    requires ValidConfig(cfg) && ValidTruths(cfg, truths) && Blocked(cfg, Run(cfg, truths, actions).asm, ix, fills)
    requires fills || forall k :: 0 <= k < |more| ==> !IsFill(more[k])
    ensures Blocked(cfg, Run(cfg, truths, actions + more).asm, ix, fills)
    decreases |more|
  {
    if more == [] {
      assert actions + more == actions;
    } else {
      var before, a := more[..|more| - 1], more[|more| - 1];
      hide Run, Inv, Phased, Blocked, Step, Enabled;
      BlockedStays(cfg, truths, actions, before, ix, fills);
      OneMoreAction(cfg, truths, actions, more);
      var s := Run(cfg, truths, actions + before);
      RunKeeps(cfg, truths, actions + before);
      RunPhased(cfg, truths, actions + before);
      if Enabled(cfg, s, a) { BlockedStep(cfg, truths, s, a, ix, fills); }
    }
  }

  predicate AllClose(cfg: Config, a: Assembler) {
    forall ix :: 0 <= ix < |a.beams| ==> Closes(cfg, a.beams[ix])
  }

  predicate AllStarted(a: Assembler) {
    forall ix :: 0 <= ix < |a.beams| ==> a.beams[ix].asm.started
  }

  /**
    When the end has begun, and as long as no mask is filled in the meantime: whatever else happens, after one call for
    each beam and one more the thread has finished if and only if in every ring buffer both chunks of the window could
    be pushed when the end began.
  */
  lemma RegularEndIff(cfg: Config, truths: Truths, actions: seq<Action>, more: seq<Action>)
    requires ValidConfig(cfg) && ValidTruths(cfg, truths) && Run(cfg, truths, actions).asm.work == Ending(0)
    requires CountEnds(more) > |cfg.shape.beamIds|
    ensures AllClose(cfg, Run(cfg, truths, actions).asm) ==> Run(cfg, truths, actions + more).asm.work == Finished
    ensures !AllClose(cfg, Run(cfg, truths, actions).asm) && (forall k :: 0 <= k < |more| ==> !IsFill(more[k])) ==>
              Run(cfg, truths, actions + more).asm.work != Finished
  {
    var a := Run(cfg, truths, actions).asm;
    RunKeeps(cfg, truths, actions);
    RunKeeps(cfg, truths, actions + more);
    hide Run, InHand, Closes, BeamInv, Books, Flags;
    if AllClose(cfg, a) {
      ClosableEnds(cfg, truths, actions, more);
    } else if forall k :: 0 <= k < |more| ==> !IsFill(more[k]) {
      var ix: nat :| ix < |a.beams| && !Closes(cfg, a.beams[ix]);
      BlockedStays(cfg, truths, actions, more, ix, false);
    }
  }

  /** If some beam has never had a packet, the thread never finishes, whatever happens. */
  lemma QuietBeamNeverFinishes(cfg: Config, truths: Truths, actions: seq<Action>, more: seq<Action>)
    requires ValidConfig(cfg) && ValidTruths(cfg, truths) && Run(cfg, truths, actions).asm.work == Ending(0)
    requires !AllStarted(Run(cfg, truths, actions).asm)
    ensures Run(cfg, truths, actions + more).asm.work != Finished
  {
    var a := Run(cfg, truths, actions).asm;
    RunKeeps(cfg, truths, actions);
    hide Run, InHand, Closes, Books, Flags, PartsLogged, Reachable;
    var ix: nat :| ix < |a.beams| && !a.beams[ix].asm.started;
    assert BeamInv(cfg, truths, a, ix);
    EndOutcome(cfg.shape.rings, a.beams[ix], truths[ix]);
    assert !Closes(cfg, a.beams[ix]) by { QuietDoesNotClose(cfg, a.beams[ix]); }
    BlockedStays(cfg, truths, actions, more, ix, true);
  }

  lemma QuietDoesNotClose(cfg: Config, r: M.State)
    requires !Closable(cfg.shape.rings, r.ring.levels, r.asm)
    ensures !Closes(cfg, r)
  {
  }

  /** Without masks and with at most four levels: the end is regular if and only if every beam has had a packet. */
  lemma ShallowEndIff(cfg: Config, truths: Truths, actions: seq<Action>, more: seq<Action>)
    requires ValidConfig(cfg) && ValidTruths(cfg, truths) && Run(cfg, truths, actions).asm.work == Ending(0)
    requires cfg.shape.rings.nrf == 0 && |cfg.shape.rings.caps| <= 4 && CountEnds(more) > |cfg.shape.beamIds|
    ensures Run(cfg, truths, actions + more).asm.work == Finished <==> AllStarted(Run(cfg, truths, actions).asm)
  {
    var a := Run(cfg, truths, actions).asm;
    RunKeeps(cfg, truths, actions);
    RunPhased(cfg, truths, actions);
    if AllStarted(a) {
      RegularEndIff(cfg, truths, actions, more);
      hide Run, InHand, Books, Flags, PartsLogged, Reachable;
      forall ix | 0 <= ix < |a.beams| ensures Closes(cfg, a.beams[ix]) {
        assert BeamInv(cfg, truths, a, ix) && BeamPhase(a.work, ix, a.beams[ix]);
        D.ShallowCloses(cfg.shape.rings, a.beams[ix], truths[ix]);
      }
      assert AllClose(cfg, a);
    } else {
      QuietBeamNeverFinishes(cfg, truths, actions, more);
    }
  }

  /** A packet never makes a ring buffer throw that has no masks and at most four levels. */
  lemma ShallowArrives(cfg: M.Config, r: M.State, ichunk: nat, truth: nat -> T.Mask)
    requires M.GoodConfig(cfg) && M.TruthShaped(truth, cfg.nrf) && Reachable(cfg, r, truth) && r.asm.pc.Resting?
    requires cfg.nrf == 0 && |cfg.caps| <= 4 && (r.asm.started ==> Fine(r))
    ensures var t := M.Take(cfg, r, M.StepArrive(ichunk), truth); Fine(t) || t.asm.pc.Pushing?
  {
    ReachableInv(cfg, r, truth);
    M.PlannableInv(cfg, r.ring, truth);
    hide M.Inv, M.Take, Fine;
    if r.asm.started {
      D.ShallowBufferNeverFails(cfg, r, truth);
      LiveArrives(cfg, r, ichunk, truth);
    } else {
      FirstArrives(cfg, r, ichunk, truth);
    }
  }

  lemma LiveArrives(cfg: M.Config, r: M.State, ichunk: nat, truth: nat -> T.Mask)
    requires r.asm.started && Fine(r) && M.Plannable(cfg, r.ring.levels)
    requires T.MakePlan(r.ring.levels, cfg.caps, 0, r.asm.active0.value, cfg.nrf).Ready?
    ensures var t := M.Take(cfg, r, M.StepArrive(ichunk), truth); Fine(t) || t.asm.pc.Pushing?
  {
  }

  lemma FirstArrives(cfg: M.Config, r: M.State, ichunk: nat, truth: nat -> T.Mask)
    requires !r.asm.started && r.asm.pc.Resting? && M.Plannable(cfg, r.ring.levels)
    ensures Fine(M.Take(cfg, r, M.StepArrive(ichunk), truth))
  {
  }

  /**
    Without masks and with at most four levels the assembler thread dies in two ways only: by judging a packet that
    divides by zero, and by ending a beam that has never had a packet.
  */
  lemma ShallowCrashesIff(cfg: Config, truths: Truths, actions: seq<Action>, a: Action)
    requires ValidConfig(cfg) && ValidTruths(cfg, truths) && Enabled(cfg, Run(cfg, truths, actions), a)
    requires cfg.shape.rings.nrf == 0 && |cfg.shape.rings.caps| <= 4
    ensures var s := Run(cfg, truths, actions);
            Step(cfg, s, a, truths).asm.work == Crashed <==>
            (a == JudgePacket && Judge(cfg.shape, s.asm.list[0]) == DivisionByZero)
            || (a == EndBeam && s.asm.work.ix < |s.asm.beams| && !s.asm.beams[s.asm.work.ix].asm.started)
  {
    var s := Run(cfg, truths, actions);
    RunKeeps(cfg, truths, actions);
    RunPhased(cfg, truths, actions);
    hide Run, Inv, Phased, Judge, Step, Enabled;
    ShallowStep(cfg, truths, s, a);
  }

  lemma ShallowStep(cfg: Config, truths: Truths, s: State, a: Action)
    requires ValidConfig(cfg) && ValidTruths(cfg, truths) && Inv(cfg, truths, s) && Phased(s.asm) && Enabled(cfg, s, a)
    requires cfg.shape.rings.nrf == 0 && |cfg.shape.rings.caps| <= 4
    ensures Step(cfg, s, a, truths).asm.work == Crashed <==>
            (a == JudgePacket && Judge(cfg.shape, s.asm.list[0]) == DivisionByZero)
            || (a == EndBeam && s.asm.work.ix < |s.asm.beams| && !s.asm.beams[s.asm.work.ix].asm.started)
  {
    hide Books, Flags, BeamsInv, Phased, Judge, Full;
    match a
    case DealBeam => hide Step; ShallowDeals(cfg, truths, s);
    case CommitPush => hide Step; CommitGoesOn(cfg, truths, s);
    case EndBeam => if s.asm.work.ix < |s.asm.beams| { hide Step; ShallowEndBeam(cfg, truths, s); }
    case JudgePacket =>
    case Other(_, _) =>
    case _ => hide PutList; assert Step(cfg, s, a, truths).asm.work != Crashed;
  }

  lemma ShallowDeals(cfg: Config, truths: Truths, s: State)
    requires ValidConfig(cfg) && ValidTruths(cfg, truths) && BeamsInv(cfg, truths, s.asm) && Phased(s.asm)
    requires Enabled(cfg, s, DealBeam) && cfg.shape.rings.nrf == 0 && |cfg.shape.rings.caps| <= 4
    ensures Step(cfg, s, DealBeam, truths).asm.work != Crashed
  {
    hide StreamPacket, PartOfBeam, PartsLogged, Phased, ChunkOf, BeamPart, Reachable, Fine, M.Take, InHand;
    var part := BeamPart(s.asm.work.packet, s.asm.work.ib);
    var ix := FirstMatch(cfg.shape.beamIds, part.beamIds[0]);
    if ix < |cfg.shape.beamIds| {
      assert BeamInv(cfg, truths, s.asm, ix);
      PhaseOf(s.asm, ix);
      ShallowArrives(cfg.shape.rings, s.asm.beams[ix], ChunkOf(cfg.shape, part), truths[ix]);
    }
  }

  /** Only planning a push can fail, not committing it. */
  lemma CommitGoesOn(cfg: Config, truths: Truths, s: State)
    requires ValidConfig(cfg) && ValidTruths(cfg, truths) && BeamsInv(cfg, truths, s.asm) && Enabled(cfg, s, CommitPush)
    ensures Step(cfg, s, CommitPush, truths).asm.work != Crashed
  {
    hide StreamPacket, PartOfBeam, PartsLogged, ChunkOf, BeamPart, Reachable, Fine, M.Take;
    assert BeamInv(cfg, truths, s.asm, s.asm.work.ix);
    CommitOutcome(cfg.shape.rings, s.asm.beams[s.asm.work.ix], truths[s.asm.work.ix]);
  }

  lemma ShallowEndBeam(cfg: Config, truths: Truths, s: State)
    requires ValidConfig(cfg) && ValidTruths(cfg, truths) && BeamsInv(cfg, truths, s.asm) && Phased(s.asm)
    requires s.asm.work.Ending? && s.asm.work.ix < |s.asm.beams| && cfg.shape.rings.nrf == 0 && |cfg.shape.rings.caps| <= 4
    ensures Enabled(cfg, s, EndBeam)
    ensures Step(cfg, s, EndBeam, truths).asm.work == Crashed <==> !s.asm.beams[s.asm.work.ix].asm.started
  {
    EndBeamIff(cfg, truths, s);
    hide Step, InHand, PartsLogged, Reachable, Closable;
    var ix := s.asm.work.ix;
    assert BeamInv(cfg, truths, s.asm, ix);
    PhaseOf(s.asm, ix);
    EndOutcome(cfg.shape.rings, s.asm.beams[ix], truths[ix]);
    if s.asm.beams[ix].asm.started { D.ShallowCloses(cfg.shape.rings, s.asm.beams[ix], truths[ix]); }
  }

  /** It happens in every configuration: the stream is cancelled before the first packet. */
  lemma CancelledBeforePackets(cfg: Config, truths: Truths)
    requires ValidConfig(cfg) && ValidTruths(cfg, truths)
    ensures Run(cfg, truths, [Cancel, BeginEnd]).asm.work == Ending(0)
    ensures !AllStarted(Run(cfg, truths, [Cancel, BeginEnd]).asm)
    ensures Run(cfg, truths, [Cancel, BeginEnd, EndBeam]).asm.work == Crashed
  {
    assert [Cancel, BeginEnd][..1] == [Cancel] && [Cancel][..0] == [];
    assert [Cancel, BeginEnd, EndBeam][..2] == [Cancel, BeginEnd];
    var s, t := Run(cfg, truths, []), Run(cfg, truths, [Cancel]);
    assert s == Initial(cfg);
    assert t == NetworkExit(cfg, s) && t.asm == s.asm && t.ring == [] && t.ringEnded;
    var u := Run(cfg, truths, [Cancel, BeginEnd]);
    assert u.asm == s.asm.(work := Ending(0));
    assert !u.asm.beams[0].asm.started;
    QuietBeamStopsTheEnd(cfg, truths, [Cancel, BeginEnd]);
  }
}
