/**
  What the counts of the assembler thread count: each judged packet in the one class that it belongs to.
*/
module PacketVerdicts {
  import opened BeamAssembly
  import opened BeamSplit
  import M = RingMachine
  import opened PacketFormat
  import opened RingCalls
  import opened RingTheorems
  import opened UdpPackets
  import opened UdpPipeline

  /** Fails the checks of decoding. */
  predicate IsBad(b: Bytes) { !Accepts(b) }

  /** Passes them, but is not of this stream. */
  predicate IsForeign(sh: Shape, b: Bytes) {
    Accepts(b) && var h := ReadHeader(b);
    !(h.nbeams == |sh.beamIds| && h.nupfreq == sh.nupfreq && h.ntsamp == sh.ntp && h.fpgaPerSample == sh.rings.fpgaPerSample)
  }

  predicate IsOurs(sh: Shape, b: Bytes) { !IsBad(b) && !IsForeign(sh, b) }

  function CountBad(l: seq<Bytes>): nat {
    if l == [] then 0 else CountBad(l[..|l| - 1]) + if IsBad(l[|l| - 1]) then 1 else 0
  }

  function CountForeign(sh: Shape, l: seq<Bytes>): nat {
    if l == [] then 0 else CountForeign(sh, l[..|l| - 1]) + if IsForeign(sh, l[|l| - 1]) then 1 else 0
  }

  function CountOurs(sh: Shape, l: seq<Bytes>): nat {
    if l == [] then 0 else CountOurs(sh, l[..|l| - 1]) + if IsOurs(sh, l[|l| - 1]) then 1 else 0
  }

  predicate Tallied(cfg: Config, s: State) {
    var c := All(s);
    && c.bad == CountBad(s.judged) && c.mismatch == CountForeign(cfg.shape, s.judged) && c.good == CountOurs(cfg.shape, s.judged)
  }

  lemma VerdictIs(sh: Shape, b: Bytes)
    ensures Judge(sh, b).BadPacket? ==> IsBad(b)
    ensures Judge(sh, b).StreamMismatch? ==> IsForeign(sh, b)
    ensures Judge(sh, b).GoodPacket? ==> IsOurs(sh, b)
  {
    hide ReadHeader, Accepts;
    if Accepts(b) { AcceptedView(b); }
  }

  lemma CountsGrow(sh: Shape, l: seq<Bytes>, b: Bytes)
    ensures CountBad(l + [b]) == CountBad(l) + if IsBad(b) then 1 else 0
    ensures CountForeign(sh, l + [b]) == CountForeign(sh, l) + if IsForeign(sh, b) then 1 else 0
    ensures CountOurs(sh, l + [b]) == CountOurs(sh, l) + if IsOurs(sh, b) then 1 else 0
  {
    hide IsBad, IsForeign, IsOurs;
    assert (l + [b])[..|l|] == l;
  }

  /** The counts that judging changes. */
  predicate SameVerdicts(s: State, t: State) {
    t.judged == s.judged && All(t).bad == All(s).bad && All(t).mismatch == All(s).mismatch && All(t).good == All(s).good
  }

  /** What judging one packet adds. */
  lemma JudgeAdds(cfg: Config, s: State, truths: Truths)
    requires |truths| == |cfg.shape.beamIds| && Enabled(cfg, s, JudgePacket)
    ensures var v, t, b := Judge(cfg.shape, s.asm.list[0]), Step(cfg, s, JudgePacket, truths), s.asm.list[0];
            && t.judged == (if v.DivisionByZero? then s.judged else s.judged + [b])
            && All(t).bad == All(s).bad + (if v.BadPacket? then 1 else 0)
            && All(t).mismatch == All(s).mismatch + (if v.StreamMismatch? then 1 else 0)
            && All(t).good == All(s).good + (if v.GoodPacket? then 1 else 0)
  {
    hide Judge;
  }

  lemma JudgeTallies(cfg: Config, s: State, truths: Truths)
    requires |truths| == |cfg.shape.beamIds| && Enabled(cfg, s, JudgePacket) && Tallied(cfg, s)
    ensures Tallied(cfg, Step(cfg, s, JudgePacket, truths))
  {
    var b := s.asm.list[0];
    JudgeAdds(cfg, s, truths);
    VerdictIs(cfg.shape, b);
    hide *;
    TallyOne(cfg, s, Step(cfg, s, JudgePacket, truths), Judge(cfg.shape, b), b);
  }

  lemma TallyOne(cfg: Config, s: State, t: State, v: Verdict, b: Bytes)
    requires Tallied(cfg, s)
    requires v.BadPacket? ==> IsBad(b)
    requires v.StreamMismatch? ==> IsForeign(cfg.shape, b)
    requires v.GoodPacket? ==> IsOurs(cfg.shape, b)
    requires t.judged == (if v.DivisionByZero? then s.judged else s.judged + [b])
    requires All(t).bad == All(s).bad + (if v.BadPacket? then 1 else 0)
    requires All(t).mismatch == All(s).mismatch + (if v.StreamMismatch? then 1 else 0)
    requires All(t).good == All(s).good + (if v.GoodPacket? then 1 else 0)
    ensures Tallied(cfg, t)
  {
    OneClass(cfg.shape, b);
    hide IsBad, IsForeign, IsOurs, CountBad, CountForeign, CountOurs, All;
    CountsGrow(cfg.shape, s.judged, b);
  }

  lemma OneClass(sh: Shape, b: Bytes)
    ensures !(IsBad(b) && IsForeign(sh, b)) && !(IsBad(b) && IsOurs(sh, b)) && !(IsForeign(sh, b) && IsOurs(sh, b))
  {
    hide Accepts, ReadHeader;
  }

  lemma FlushKeepsVerdicts(cfg: Config, s: State)
    ensures SameVerdicts(s, PutList(cfg, s)) && SameVerdicts(s, Flush(cfg, s)) && SameVerdicts(s, NetworkExit(cfg, s))
    ensures SameVerdicts(s, AddNetworkCounts(s))
  {
    AddKeepsVerdicts(s);
    var t := PutList(cfg, s);
    assert SameVerdicts(s, t);
    hide PutList;
    AddKeepsVerdicts(t);
  }

  lemma AddKeepsVerdicts(s: State)
    ensures SameVerdicts(s, AddNetworkCounts(s))
  {
  }

  lemma ListKeepsVerdicts(s: State, n: Network)
    requires n.counts.bad == s.net.counts.bad && n.counts.mismatch == s.net.counts.mismatch && n.counts.good == s.net.counts.good
    ensures SameVerdicts(s, s.(net := n))
  {
  }

  lemma ReceiveKeepsVerdicts(cfg: Config, s: State, p: Bytes)
    ensures SameVerdicts(s, ReceivePacket(cfg, s, p))
  {
    hide Flush, NetworkExit, Full, All;
    var c := s.net.counts.(received := s.net.counts.received + 1);
    if |p| == END_OF_STREAM_SIZE {
      var n := s.net.(counts := c.(endOfStream := c.endOfStream + 1));
      ListKeepsVerdicts(s, n);
      FlushKeepsVerdicts(cfg, s.(net := n));
    } else if |p| == 0 || |p| > MAX_INPUT_PACKET_SIZE {
      var n := s.net.(counts := c, rejected := s.net.rejected + 1);
      ListKeepsVerdicts(s, n);
      FlushKeepsVerdicts(cfg, s.(net := n));
    } else {
      var n := s.net.(counts := c, list := s.net.list + [p]);
      ListKeepsVerdicts(s, n);
      FlushKeepsVerdicts(cfg, s.(net := n));
    }
  }

  lemma NetworkKeepsVerdicts(cfg: Config, s: State, a: Action, truths: Truths)
    requires |truths| == |cfg.shape.beamIds| && Enabled(cfg, s, a)
    requires a.Receive? || a == Timeout || a == NetworkCounts || a == Cancel
    ensures SameVerdicts(s, Step(cfg, s, a, truths))
  {
    hide Flush, NetworkExit, AddNetworkCounts, ReceivePacket, SameVerdicts;
    FlushKeepsVerdicts(cfg, s);
    if a.Receive? { ReceiveKeepsVerdicts(cfg, s, a.packet); }
  }

  lemma DealingKeepsVerdicts(cfg: Config, s: State, p: Packet, ib: nat, ix: nat, part: Packet, t: M.State)
    requires ix < |s.asm.beams| == |s.asm.parts|
    ensures SameVerdicts(s, s.(asm := Dealing(cfg, s.asm, p, ib, ix, part, t)))
  {
  }

  lemma OtherKeepsVerdicts(cfg: Config, s: State, a: Action, truths: Truths)
    requires |truths| == |cfg.shape.beamIds| && Enabled(cfg, s, a)
    requires !(a.Receive? || a == Timeout || a == NetworkCounts || a == Cancel || a == JudgePacket)
    ensures SameVerdicts(s, Step(cfg, s, a, truths))
  {
    hide M.Take, Dealing, BeamPart, ChunkOf;
    match a
    case DealBeam =>
      var p, ib := s.asm.work.packet, s.asm.work.ib;
      var part := BeamPart(p, ib);
      var ix := FirstMatch(cfg.shape.beamIds, part.beamIds[0]);
      if ix < |cfg.shape.beamIds| {
        DealingKeepsVerdicts(cfg, s, p, ib, ix, part,
                             M.Take(cfg.shape.rings, s.asm.beams[ix], M.StepArrive(ChunkOf(cfg.shape, part)), truths[ix]));
      }
    case CommitPush =>
      var p, ib, ix := s.asm.work.packet, s.asm.work.ib, s.asm.work.ix;
      DealingKeepsVerdicts(cfg, s, p, ib, ix, BeamPart(p, ib), M.Take(cfg.shape.rings, s.asm.beams[ix], M.StepCommit, truths[ix]));
    case _ =>
  }

  /**
    In every run: bad packets are the judged ones that do not decode, mismatches those that decode to a packet of another
    stream, and good ones the rest.
  */
  lemma {:induction false} VerdictsAreCounted(cfg: Config, truths: Truths, actions: seq<Action>)
    requires |truths| == |cfg.shape.beamIds|
    ensures Tallied(cfg, Run(cfg, truths, actions))
  {
    if actions != [] {
      var before, a := actions[..|actions| - 1], actions[|actions| - 1];
      var s := Run(cfg, truths, before);
      VerdictsAreCounted(cfg, truths, before);
      hide Step, Enabled, CountBad, CountForeign, CountOurs, All;
      if Enabled(cfg, s, a) {
        if a == JudgePacket {
          JudgeTallies(cfg, s, truths);
        } else if a.Receive? || a == Timeout || a == NetworkCounts || a == Cancel {
          NetworkKeepsVerdicts(cfg, s, a, truths);
        } else {
          OtherKeepsVerdicts(cfg, s, a, truths);
        }
      }
    }
  }

  // ------------------------------------------------------------------------------------------------
  // Hits and misses

  function SumHits(beams: seq<M.State>): nat {
    if beams == [] then 0 else SumHits(beams[..|beams| - 1]) + beams[|beams| - 1].asm.hits
  }

  function SumMisses(beams: seq<M.State>): nat {
    if beams == [] then 0 else SumMisses(beams[..|beams| - 1]) + beams[|beams| - 1].asm.misses
  }

  /** The stream's hits are those of its ring buffers, and so are its misses. */
  predicate HitsTallied(s: State) {
    s.asm.work != Crashed ==> All(s).hits == SumHits(s.asm.beams) && All(s).misses == SumMisses(s.asm.beams)
  }

  lemma {:induction false} SumsUpdate(beams: seq<M.State>, ix: nat, t: M.State)
    requires ix < |beams|
    ensures SumHits(beams[ix := t]) + beams[ix].asm.hits == SumHits(beams) + t.asm.hits
    ensures SumMisses(beams[ix := t]) + beams[ix].asm.misses == SumMisses(beams) + t.asm.misses
  {
    var front, after := beams[..|beams| - 1], beams[ix := t];
    if ix < |beams| - 1 {
      SumsUpdate(front, ix, t);
      assert after[..|after| - 1] == front[ix := t];
    } else {
      assert after[..|after| - 1] == front;
    }
  }

  /** Counts that a step of the assembler leaves alone. */
  predicate SameHits(s: State, t: State) {
    t.asm.beams == s.asm.beams && All(t).hits == All(s).hits && All(t).misses == All(s).misses
    && (s.asm.work == Crashed ==> t.asm.work == Crashed)
  }

  lemma DealingTallies(cfg: Config, s: State, p: Packet, ib: nat, ix: nat, part: Packet, t: M.State)
    requires ix < |s.asm.beams| == |s.asm.parts| && HitsTallied(s) && s.asm.work != Crashed
    requires Fine(t) ==> CountsMore(s.asm.beams[ix], t, 1)
    requires Waiting(t) ==> CountsMore(s.asm.beams[ix], t, 0)
    requires t.asm.pc.Resting? || Waiting(t)
    ensures HitsTallied(s.(asm := Dealing(cfg, s.asm, p, ib, ix, part, t)))
  {
    SumsUpdate(s.asm.beams, ix, t);
    hide SumHits, SumMisses;
  }

  lemma DealTallies(cfg: Config, truths: Truths, s: State)
    requires ValidConfig(cfg) && ValidTruths(cfg, truths) && BeamsInv(cfg, truths, s.asm) && HitsTallied(s)
    requires Enabled(cfg, s, DealBeam)
    ensures HitsTallied(Step(cfg, s, DealBeam, truths))
  {
    hide StreamPacket, PartOfBeam, PartsLogged, HitsTallied, ChunkOf, Dealing, BeamPart, Fine, Waiting;
    var p, ib := s.asm.work.packet, s.asm.work.ib;
    var part := BeamPart(p, ib);
    var ix := FirstMatch(cfg.shape.beamIds, part.beamIds[0]);
    if ix == |cfg.shape.beamIds| {
      MissedBeamTallies(cfg, s, p, ib);
    } else {
      assert BeamInv(cfg, truths, s.asm, ix);
      var ichunk := ChunkOf(cfg.shape, part);
      ArriveOutcome(cfg.shape.rings, s.asm.beams[ix], ichunk, truths[ix]);
      hide M.Take, Reachable;
      DealingTallies(cfg, s, p, ib, ix, part, M.Take(cfg.shape.rings, s.asm.beams[ix], M.StepArrive(ichunk), truths[ix]));
    }
  }

  lemma MissedBeamTallies(cfg: Config, s: State, p: Packet, ib: nat)
    requires HitsTallied(s) && s.asm.work != Crashed
    ensures HitsTallied(s.(asm := s.asm.(counts := s.asm.counts.(beamMismatch := s.asm.counts.beamMismatch + 1),
                                         work := NextBeam(cfg, p, ib))))
  {
  }

  lemma CommitTallies(cfg: Config, truths: Truths, s: State)
    requires ValidConfig(cfg) && ValidTruths(cfg, truths) && BeamsInv(cfg, truths, s.asm) && HitsTallied(s)
    requires Enabled(cfg, s, CommitPush)
    ensures HitsTallied(Step(cfg, s, CommitPush, truths))
  {
    hide StreamPacket, PartOfBeam, PartsLogged, HitsTallied, ChunkOf, Dealing, BeamPart, M.Take;
    var p, ib, ix := s.asm.work.packet, s.asm.work.ib, s.asm.work.ix;
    assert BeamInv(cfg, truths, s.asm, ix);
    CommitOutcome(cfg.shape.rings, s.asm.beams[ix], truths[ix]);
    hide Reachable;
    DealingTallies(cfg, s, p, ib, ix, BeamPart(p, ib), M.Take(cfg.shape.rings, s.asm.beams[ix], M.StepCommit, truths[ix]));
  }

  /** A step that changes one ring buffer, but neither its hits nor its misses. */
  lemma SameSums(s: State, t: State, ix: nat)
    requires HitsTallied(s) && s.asm.work != Crashed && ix < |s.asm.beams| == |t.asm.beams|
    requires t.asm.beams == s.asm.beams[ix := t.asm.beams[ix]] && All(t).hits == All(s).hits && All(t).misses == All(s).misses
    requires t.asm.beams[ix].asm.hits == s.asm.beams[ix].asm.hits && t.asm.beams[ix].asm.misses == s.asm.beams[ix].asm.misses
    ensures HitsTallied(t)
  {
    SumsUpdate(s.asm.beams, ix, t.asm.beams[ix]);
    hide SumHits, SumMisses, All;
  }

  lemma EndTallies(cfg: Config, truths: Truths, s: State)
    requires ValidConfig(cfg) && ValidTruths(cfg, truths) && BeamsInv(cfg, truths, s.asm) && HitsTallied(s)
    requires Enabled(cfg, s, EndBeam)
    ensures HitsTallied(Step(cfg, s, EndBeam, truths))
  {
    hide PartOfBeam, PartsLogged, HitsTallied, Ended, Reachable;
    var ix, t := s.asm.work.ix, Step(cfg, s, EndBeam, truths);
    if ix < |s.asm.beams| {
      assert BeamInv(cfg, truths, s.asm, ix);
      EndKeepsLog(cfg.shape, ix, s.asm.beams[ix], truths[ix], s.asm.parts[ix]);
      SameSums(s, t, ix);
    } else {
      FinishTallies(s, t);
    }
  }

  lemma FinishTallies(s: State, t: State)
    requires HitsTallied(s) && SameHits(s, t)
    ensures HitsTallied(t)
  {
    hide SumHits, SumMisses, All;
  }

  lemma OtherTallies(cfg: Config, truths: Truths, s: State, ix: nat, step: M.Step)
    requires ValidConfig(cfg) && ValidTruths(cfg, truths) && BeamsInv(cfg, truths, s.asm) && HitsTallied(s)
    requires Enabled(cfg, s, Other(ix, step))
    ensures HitsTallied(Step(cfg, s, Other(ix, step), truths))
  {
    hide PartOfBeam, PartsLogged, HitsTallied, Reachable, InHand;
    assert BeamInv(cfg, truths, s.asm, ix);
    OtherOutcome(cfg.shape.rings, s.asm.beams[ix], step, truths[ix]);
    hide M.Take;
    SameSums(s, Step(cfg, s, Other(ix, step), truths), ix);
  }

  lemma ListKeepsHits(s: State, n: Network)
    requires n.counts.hits == s.net.counts.hits && n.counts.misses == s.net.counts.misses
    ensures SameHits(s, s.(net := n))
  {
  }

  lemma FlushKeepsHits(cfg: Config, s: State)
    ensures SameHits(s, Flush(cfg, s)) && SameHits(s, NetworkExit(cfg, s)) && SameHits(s, AddNetworkCounts(s))
  {
    AddKeepsHits(s);
    var t := PutList(cfg, s);
    assert SameHits(s, t);
    hide PutList;
    AddKeepsHits(t);
  }

  lemma AddKeepsHits(s: State)
    ensures SameHits(s, AddNetworkCounts(s))
  {
  }

  lemma ReceiveKeepsHits(cfg: Config, s: State, p: Bytes)
    ensures SameHits(s, ReceivePacket(cfg, s, p))
  {
    hide Flush, NetworkExit, Full, All;
    var c := s.net.counts.(received := s.net.counts.received + 1);
    if |p| == END_OF_STREAM_SIZE {
      var n := s.net.(counts := c.(endOfStream := c.endOfStream + 1));
      ListKeepsHits(s, n);
      FlushKeepsHits(cfg, s.(net := n));
    } else if |p| == 0 || |p| > MAX_INPUT_PACKET_SIZE {
      var n := s.net.(counts := c, rejected := s.net.rejected + 1);
      ListKeepsHits(s, n);
      FlushKeepsHits(cfg, s.(net := n));
    } else {
      var n := s.net.(counts := c, list := s.net.list + [p]);
      ListKeepsHits(s, n);
      FlushKeepsHits(cfg, s.(net := n));
    }
  }

  lemma QuietTallies(cfg: Config, s: State, a: Action, truths: Truths)
    requires |truths| == |cfg.shape.beamIds| && Enabled(cfg, s, a) && HitsTallied(s)
    requires !(a == DealBeam || a == CommitPush || a == EndBeam || a.Other?)
    ensures HitsTallied(Step(cfg, s, a, truths))
  {
    hide Flush, NetworkExit, AddNetworkCounts, ReceivePacket, HitsTallied, SumHits, SumMisses;
    FlushKeepsHits(cfg, s);
    if a.Receive? { ReceiveKeepsHits(cfg, s, a.packet); }
    if a == JudgePacket {
      JudgeCases(cfg, s.asm);
      hide JudgeFirst;
    }
    FinishTallies(s, Step(cfg, s, a, truths));
  }

  /** In every run in which nothing has been thrown the cumulative hits and misses are the sums of those of the beams. */
  lemma {:induction false} HitsAreCounted(cfg: Config, truths: Truths, actions: seq<Action>)
    requires ValidConfig(cfg) && ValidTruths(cfg, truths)
    ensures HitsTallied(Run(cfg, truths, actions))
  {
    if actions == [] {
      NoHitsYet(|cfg.shape.beamIds|, cfg);
    } else {
      var before, a := actions[..|actions| - 1], actions[|actions| - 1];
      var s := Run(cfg, truths, before);
      HitsAreCounted(cfg, truths, before);
      RunKeeps(cfg, truths, before);
      hide Run, Step, Enabled, HitsTallied, Books, Flags, BeamsInv, ValidConfig;
      LastAction(cfg, truths, actions);
      if Enabled(cfg, s, a) {
        match a
        case DealBeam => DealTallies(cfg, truths, s);
        case CommitPush => CommitTallies(cfg, truths, s);
        case EndBeam => EndTallies(cfg, truths, s);
        case Other(ix, step) => OtherTallies(cfg, truths, s, ix, step);
        case _ => QuietTallies(cfg, s, a, truths);
      }
    }
  }

  lemma {:induction false} NoHitsYet(n: nat, cfg: Config)
    ensures var beams := seq(n, _ => M.Initial(cfg.shape.rings)); SumHits(beams) == 0 && SumMisses(beams) == 0
  {
    if n > 0 {
      NoHitsYet(n - 1, cfg);
      var beams := seq(n, _ => M.Initial(cfg.shape.rings));
      assert beams[..n - 1] == seq(n - 1, _ => M.Initial(cfg.shape.rings));
    }
  }

  // ------------------------------------------------------------------------------------------------
  // What has been received

  /** The datagrams that the network thread has received. */
  function Received(cfg: Config, truths: Truths, actions: seq<Action>): seq<Bytes>
    requires |truths| == |cfg.shape.beamIds|
  {
    if actions == [] then []
    else
      var before, a := actions[..|actions| - 1], actions[|actions| - 1];
      Received(cfg, truths, before) + if a.Receive? && Enabled(cfg, Run(cfg, truths, before), a) then [a.packet] else []
  }

  function CountEnds(l: seq<Bytes>): nat {
    if l == [] then 0 else CountEnds(l[..|l| - 1]) + if |l[|l| - 1]| == 24 then 1 else 0
  }

  predicate ReceiptsTallied(s: State, l: seq<Bytes>) {
    All(s).received == |l| && All(s).endOfStream == CountEnds(l)
  }

  predicate SameReceipts(s: State, t: State) {
    All(t).received == All(s).received && All(t).endOfStream == All(s).endOfStream
  }

  lemma FlushKeepsReceipts(cfg: Config, s: State)
    ensures SameReceipts(s, Flush(cfg, s)) && SameReceipts(s, NetworkExit(cfg, s)) && SameReceipts(s, AddNetworkCounts(s))
  {
    AddKeepsReceipts(s);
    var t := PutList(cfg, s);
    assert SameReceipts(s, t);
    hide PutList;
    AddKeepsReceipts(t);
  }

  lemma AddKeepsReceipts(s: State)
    ensures SameReceipts(s, AddNetworkCounts(s))
  {
  }

  lemma NetworkReceipts(s: State, n: Network, ends: nat)
    requires n.counts.received == s.net.counts.received + 1 && n.counts.endOfStream == s.net.counts.endOfStream + ends
    ensures All(s.(net := n)).received == All(s).received + 1 && All(s.(net := n)).endOfStream == All(s).endOfStream + ends
  {
  }

  lemma ReceiveCounts(cfg: Config, s: State, p: Bytes)
    ensures var t := ReceivePacket(cfg, s, p);
            All(t).received == All(s).received + 1 && All(t).endOfStream == All(s).endOfStream + if |p| == 24 then 1 else 0
  {
    hide Flush, NetworkExit, Full, All;
    var c := s.net.counts.(received := s.net.counts.received + 1);
    if |p| == END_OF_STREAM_SIZE {
      var n := s.net.(counts := c.(endOfStream := c.endOfStream + 1));
      NetworkReceipts(s, n, 1);
      FlushKeepsReceipts(cfg, s.(net := n));
    } else if |p| == 0 || |p| > MAX_INPUT_PACKET_SIZE {
      var n := s.net.(counts := c, rejected := s.net.rejected + 1);
      NetworkReceipts(s, n, 0);
      FlushKeepsReceipts(cfg, s.(net := n));
    } else {
      var n := s.net.(counts := c, list := s.net.list + [p]);
      NetworkReceipts(s, n, 0);
      FlushKeepsReceipts(cfg, s.(net := n));
    }
  }

  lemma OthersReceiveNothing(cfg: Config, s: State, a: Action, truths: Truths)
    requires |truths| == |cfg.shape.beamIds| && Enabled(cfg, s, a) && !a.Receive?
    ensures SameReceipts(s, Step(cfg, s, a, truths))
  {
    hide Flush, NetworkExit, AddNetworkCounts, M.Take, Ended, Judge, BeamPart, ChunkOf, Fine;
    FlushKeepsReceipts(cfg, s);
  }

  /** In every run: packets received are the datagrams that came, ends of the stream those of 24 bytes. */
  lemma {:induction false} ReceiptsAreCounted(cfg: Config, truths: Truths, actions: seq<Action>)
    requires |truths| == |cfg.shape.beamIds|
    ensures ReceiptsTallied(Run(cfg, truths, actions), Received(cfg, truths, actions))
  {
    if actions == [] {
      NothingReceived(cfg, truths);
    } else {
      var before, a := actions[..|actions| - 1], actions[|actions| - 1];
      var s, l := Run(cfg, truths, before), Received(cfg, truths, before);
      ReceiptsAreCounted(cfg, truths, before);
      hide Run, Step, Enabled, ReceiptsTallied;
      LastAction(cfg, truths, actions);
      if Enabled(cfg, s, a) {
        ReceiptStep(cfg, s, a, truths, l);
      } else {
        assert l + [] == l;
      }
    }
  }

  lemma NothingReceived(cfg: Config, truths: Truths)
    requires |truths| == |cfg.shape.beamIds|
    ensures ReceiptsTallied(Run(cfg, truths, []), [])
  {
  }

  lemma ReceiptStep(cfg: Config, s: State, a: Action, truths: Truths, l: seq<Bytes>)
    requires |truths| == |cfg.shape.beamIds| && Enabled(cfg, s, a) && ReceiptsTallied(s, l)
    ensures ReceiptsTallied(Step(cfg, s, a, truths), l + if a.Receive? then [a.packet] else [])
  {
    if a.Receive? {
      assert (l + [a.packet])[..|l|] == l;
      ReceiveCounts(cfg, s, a.packet);
      hide ReceivePacket, All;
    } else {
      assert l + [] == l;
      OthersReceiveNothing(cfg, s, a, truths);
      hide Step, Enabled, All;
    }
  }

  // ------------------------------------------------------------------------------------------------
  // When the network thread flushes, and when it stops

  /** What stops it: a packet of an impossible size, an end of stream if those are accepted, and a cancellation. */
  predicate Stops(cfg: Config, a: Action) {
    || a == Cancel
    || (a.Receive? && (|a.packet| == 0 || |a.packet| > 9000 || (|a.packet| == 24 && cfg.acceptEndOfStream)))
  }

  /**
    The network thread stops exactly for these, and with it the ring of lists ends; a time-out and the stop flush its
    list; a packet is appended, and the list flushed if it is full then.
  */
  lemma NetworkActs(cfg: Config, s: State, a: Action, truths: Truths)
    requires |truths| == |cfg.shape.beamIds| && Enabled(cfg, s, a) && !s.net.done && !s.ringEnded
    ensures var t := Step(cfg, s, a, truths);
            && (t.net.done <==> Stops(cfg, a)) && (t.ringEnded <==> t.net.done)
            && (a == Timeout || t.net.done ==> t.net.list == [])
            && (a.Receive? && !t.net.done && |a.packet| != 24 ==>
                  t.net.list == if Full(cfg, s.net.list + [a.packet]) then [] else s.net.list + [a.packet])
            && (!a.Receive? && a != Timeout && a != Cancel ==> t.net.list == s.net.list)
  {
    hide Full, M.Take, Deal, Commit, EndOne, JudgeFirst, Plus;
  }
}
