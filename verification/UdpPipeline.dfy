/**
  The two receiving threads as a machine of atomic steps: the network thread fills a list and flushes it into the ring
  of lists; the assembler thread takes lists off the ring, judges their packets, and hands the beams of good ones, one
  after the other, to the ring buffers, which other threads use at the same time.  Event counts are kept per thread and
  added to the cumulative counts now and then.
*/
module UdpPipeline {
  import opened BeamAssembly
  import opened BeamSplit
  import opened BitMatrix
  import C = ChunkAssembly
  import opened EncodeBound
  import M = RingMachine
  import opened PacketFormat
  import opened RingCalls
  import opened RingTheorems
  import T = Telescope
  import opened UdpPackets

  const END_OF_STREAM_SIZE := 24

  datatype Counts = Counts(received: nat, endOfStream: nat, dropped: nat, bad: nat, mismatch: nat, good: nat,
                           beamMismatch: nat, hits: nat, misses: nat)

  function NoCounts(): Counts { Counts(0, 0, 0, 0, 0, 0, 0, 0, 0) }

  function Plus(a: Counts, b: Counts): Counts {
    Counts(a.received + b.received, a.endOfStream + b.endOfStream, a.dropped + b.dropped, a.bad + b.bad,
           a.mismatch + b.mismatch, a.good + b.good, a.beamMismatch + b.beamMismatch, a.hits + b.hits, a.misses + b.misses)
  }

  datatype Config = Config(shape: Shape, capacity: nat, maxNpackets: nat, maxNbytes: nat, maxPacketSize: nat,
                           acceptEndOfStream: bool)

  predicate ValidConfig(cfg: Config) {
    cfg.capacity > 0 && cfg.maxNpackets > 0 && cfg.maxNbytes > 0 && ValidShape(cfg.shape)
  }

  /** The RFI masks that will be computed, beam by beam. */
  type Truths = seq<nat -> T.Mask>

  ghost predicate ValidTruths(cfg: Config, truths: Truths) {
    |truths| == |cfg.shape.beamIds| && forall ix :: 0 <= ix < |truths| ==> M.TruthShaped(truths[ix], cfg.shape.rings.nrf)
  }

  /** The list being filled; `rejected` counts packets of an impossible size, which stop the thread. */
  datatype Network = Network(list: seq<Bytes>, counts: Counts, done: bool, rejected: nat)

  /**
    Where the assembler thread is: between packets, about to deal with beam `ib` of a packet, in the middle of the push
    that this beam has caused in ring buffer `ix`, ending the streams from beam `ix` on, at its regular end, or stopped
    by an exception or a division by zero.
  */
  datatype Work = Resting | Splitting(packet: Packet, ib: nat) | Pushing(packet: Packet, ib: nat, ix: nat)
                | Ending(ix: nat) | Finished | Crashed

  /** What is left of its list, its ring buffers, and, as history, the parts each of them has logged. */
  datatype Assembler = Assembler(list: seq<Bytes>, counts: Counts, work: Work, beams: seq<M.State>, parts: seq<seq<Packet>>)

  /** `accepted` holds the packets of all lists that went into the ring, `judged` those that the assembler has judged. */
  datatype State = State(net: Network, ring: seq<seq<Bytes>>, ringEnded: bool, asm: Assembler, total: Counts,
                         accepted: seq<Bytes>, judged: seq<Bytes>)

  function Initial(cfg: Config): State {
    State(Network([], NoCounts(), false, 0), [], false,
          Assembler([], NoCounts(), Resting, seq(|cfg.shape.beamIds|, _ => M.Initial(cfg.shape.rings)), seq(|cfg.shape.beamIds|, _ => [])),
          NoCounts(), [], [])
  }

  datatype Action =
    | Receive(packet: Bytes)
    | Timeout
    | NetworkCounts
    | Cancel
    | TakeList
    | JudgePacket
    | DealBeam
    | CommitPush
    | AssemblerCounts
    | BeginEnd
    | EndBeam
    | Other(ix: nat, step: M.Step)

  // ------------------------------------------------------------------------------------------------
  // The network thread

  function Size(l: seq<Bytes>): nat {
    if l == [] then 0 else Size(l[..|l| - 1]) + |l[|l| - 1]|
  }

  function Flat(r: seq<seq<Bytes>>): seq<Bytes> {
    if r == [] then [] else Flat(r[..|r| - 1]) + r[|r| - 1]
  }

  predicate Full(cfg: Config, l: seq<Bytes>) {
    |l| >= cfg.maxNpackets || Size(l) >= cfg.maxNbytes
  }

  /** Hands the list to the ring, or drops it. */
  function PutList(cfg: Config, s: State): State {
    var n := s.net;
    if n.list == [] then s
    else if |s.ring| < cfg.capacity then
      s.(net := n.(list := []), ring := s.ring + [n.list], accepted := s.accepted + n.list)
    else s.(net := n.(list := [], counts := n.counts.(dropped := n.counts.dropped + |n.list|)))
  }

  function AddNetworkCounts(s: State): State {
    s.(total := Plus(s.total, s.net.counts), net := s.net.(counts := NoCounts()))
  }

  function Flush(cfg: Config, s: State): State {
    AddNetworkCounts(PutList(cfg, s))
  }

  /** All exits of the network thread. */
  function NetworkExit(cfg: Config, s: State): State {
    var t := AddNetworkCounts(PutList(cfg, s));
    t.(net := t.net.(done := true), ringEnded := true)
  }

  function ReceivePacket(cfg: Config, s: State, p: Bytes): State {
    var c := s.net.counts.(received := s.net.counts.received + 1);
    if |p| == END_OF_STREAM_SIZE then
      var e := s.(net := s.net.(counts := c.(endOfStream := c.endOfStream + 1)));
      if cfg.acceptEndOfStream then NetworkExit(cfg, e) else e
    else if |p| == 0 || |p| > MAX_INPUT_PACKET_SIZE then
      NetworkExit(cfg, s.(net := s.net.(counts := c, rejected := s.net.rejected + 1)))
    else
      var a := s.(net := s.net.(counts := c, list := s.net.list + [p]));
      if Full(cfg, a.net.list) then Flush(cfg, a) else a
  }

  // ------------------------------------------------------------------------------------------------
  // The assembler thread

  /** On to the next beam of the packet, or to the next packet. */
  function NextBeam(cfg: Config, p: Packet, ib: nat): Work {
    if ib + 1 < |cfg.shape.beamIds| then Splitting(p, ib + 1) else Resting
  }

  function JudgeFirst(cfg: Config, a: Assembler): Assembler
    requires a.list != []
  {
    var c, rest := a.counts, a.list[1..];
    match Judge(cfg.shape, a.list[0])
    case DivisionByZero => a.(work := Crashed)
    case BadPacket => a.(list := rest, counts := c.(bad := c.bad + 1))
    case StreamMismatch => a.(list := rest, counts := c.(mismatch := c.mismatch + 1))
    case GoodPacket(p) => a.(list := rest, counts := c.(good := c.good + 1), work := Splitting(p, 0))
  }

  function Excess(m: nat, n: nat): nat { if m >= n then m - n else 0 }

  /** Hits and misses are counted where they happen, in the ring buffer. */
  function AddCounts(c: Counts, r: M.State, t: M.State): Counts {
    c.(hits := c.hits + Excess(t.asm.hits, r.asm.hits), misses := c.misses + Excess(t.asm.misses, r.asm.misses))
  }

  /** Ring buffer ix has gone from r to t on behalf of one part. */
  function Dealing(cfg: Config, a: Assembler, p: Packet, ib: nat, ix: nat, part: Packet, t: M.State): Assembler
    requires ix < |a.beams| == |a.parts|
  {
    var b := a.(beams := a.beams[ix := t], counts := AddCounts(a.counts, a.beams[ix], t));
    if Fine(t) then b.(parts := a.parts[ix := a.parts[ix] + [part]], work := NextBeam(cfg, p, ib))
    else if t.asm.pc.Pushing? then b.(work := Pushing(p, ib, ix))
    else b.(work := Crashed)
  }

  predicate CanDeal(cfg: Config, a: Assembler) {
    && a.work.Splitting? && Consistent(a.work.packet) && a.work.ib < a.work.packet.h.nbeams
    && |BeamPart(a.work.packet, a.work.ib).beamIds| == 1
    && cfg.shape.rings.fpgaPerSample > 0 && |a.beams| == |a.parts| == |cfg.shape.beamIds|
  }

  /** One beam of a packet: no assembler has its identifier, or the first that has gets the part. */
  function Deal(cfg: Config, a: Assembler, truths: Truths): Assembler
    requires CanDeal(cfg, a) && |truths| == |a.beams|
  {
    var p, ib := a.work.packet, a.work.ib;
    var part := BeamPart(p, ib);
    var ix := FirstMatch(cfg.shape.beamIds, part.beamIds[0]);
    if ix == |cfg.shape.beamIds| then
      a.(counts := a.counts.(beamMismatch := a.counts.beamMismatch + 1), work := NextBeam(cfg, p, ib))
    else
      Dealing(cfg, a, p, ib, ix, part, M.Take(cfg.shape.rings, a.beams[ix], M.StepArrive(ChunkOf(cfg.shape, part)), truths[ix]))
  }

  predicate CanCommit(cfg: Config, a: Assembler) {
    && a.work.Pushing? && Consistent(a.work.packet) && a.work.ib < a.work.packet.h.nbeams
    && a.work.ix < |a.beams| == |a.parts| == |cfg.shape.beamIds|
  }

  function Commit(cfg: Config, a: Assembler, truths: Truths): Assembler
    requires CanCommit(cfg, a) && |truths| == |a.beams|
  {
    var p, ib, ix := a.work.packet, a.work.ib, a.work.ix;
    Dealing(cfg, a, p, ib, ix, BeamPart(p, ib), M.Take(cfg.shape.rings, a.beams[ix], M.StepCommit, truths[ix]))
  }

  /** Ends the stream of beam ix; after the last one the thread has finished. */
  function EndOne(cfg: Config, a: Assembler, truths: Truths): Assembler
    requires a.work.Ending? && a.work.ix < |a.beams| == |truths|
  {
    var ix := a.work.ix;
    var t := Ended(cfg.shape.rings, a.beams[ix], truths[ix]);
    if !t.asm.done then a.(beams := a.beams[ix := t], work := Crashed)
    else a.(beams := a.beams[ix := t], work := Ending(ix + 1))
  }

  // ------------------------------------------------------------------------------------------------
  // Steps

  /** An exception that leaves the assembler thread ends the process. */
  predicate Enabled(cfg: Config, s: State, a: Action) {
    && s.asm.work != Crashed
    && match a
       case Receive(p) => !s.net.done && |p| <= cfg.maxPacketSize + 1
       case Timeout => !s.net.done
       case NetworkCounts => !s.net.done
       case Cancel => !s.net.done
       case TakeList => s.asm.work == Resting && s.asm.list == [] && s.ring != []
       case JudgePacket => s.asm.work == Resting && s.asm.list != []
       case DealBeam => CanDeal(cfg, s.asm)
       case CommitPush => CanCommit(cfg, s.asm)
       case AssemblerCounts => s.asm.work == Resting && s.asm.list == []
       case BeginEnd => s.asm.work == Resting && s.asm.list == [] && s.ring == [] && s.ringEnded
       case EndBeam => s.asm.work.Ending? && s.asm.work.ix <= |s.asm.beams| == |cfg.shape.beamIds|
       case Other(ix, step) => ix < |s.asm.beams| == |cfg.shape.beamIds| && (step.StepGet? || step.StepFill?)
  }

  function AddAssemblerCounts(s: State): State {
    s.(total := Plus(s.total, s.asm.counts), asm := s.asm.(counts := NoCounts()))
  }

  function Step(cfg: Config, s: State, a: Action, truths: Truths): State
    requires Enabled(cfg, s, a) && |truths| == |cfg.shape.beamIds|
  {
    match a
    case Receive(p) => ReceivePacket(cfg, s, p)
    case Timeout => Flush(cfg, s)
    case NetworkCounts => AddNetworkCounts(s)
    case Cancel => NetworkExit(cfg, s)
    case TakeList => s.(asm := s.asm.(list := s.ring[0]), ring := s.ring[1..])
    case JudgePacket =>
      var after := JudgeFirst(cfg, s.asm);
      s.(asm := after, judged := if after.work == Crashed then s.judged else s.judged + [s.asm.list[0]])
    case DealBeam => s.(asm := Deal(cfg, s.asm, truths))
    case CommitPush => s.(asm := Commit(cfg, s.asm, truths))
    case AssemblerCounts => AddAssemblerCounts(s)
    case BeginEnd => s.(asm := s.asm.(work := Ending(0)))
    case EndBeam =>
      if s.asm.work.ix < |s.asm.beams| then s.(asm := EndOne(cfg, s.asm, truths))
      else AddAssemblerCounts(s.(asm := s.asm.(work := Finished)))
    case Other(ix, step) =>
      s.(asm := s.asm.(beams := s.asm.beams[ix := M.Take(cfg.shape.rings, s.asm.beams[ix], step, truths[ix])]))
  }

  function Run(cfg: Config, truths: Truths, actions: seq<Action>): State
    requires |truths| == |cfg.shape.beamIds|
  {
    if actions == [] then Initial(cfg)
    else
      var s, a := Run(cfg, truths, actions[..|actions| - 1]), actions[|actions| - 1];
      if Enabled(cfg, s, a) then Step(cfg, s, a, truths) else s
  }

  // ------------------------------------------------------------------------------------------------
  // The books

  function All(s: State): Counts { Plus(s.total, Plus(s.net.counts, s.asm.counts)) }

  /** Packets that are in one of the lists. */
  function InFlight(s: State): nat { |s.net.list| + |Flat(s.ring)| + |s.asm.list| }

  /** Every received packet is accounted for exactly once. */
  predicate PacketsBalance(s: State) {
    var c := All(s);
    c.received == c.endOfStream + s.net.rejected + c.dropped + c.bad + c.mismatch + c.good + InFlight(s)
  }

  /** Beams of the packet in hand that have not been counted yet. */
  function Remaining(cfg: Config, w: Work): nat {
    match w
    case Splitting(_, ib) => Excess(|cfg.shape.beamIds|, ib)
    case Pushing(_, ib, _) => Excess(|cfg.shape.beamIds|, ib)
    case _ => 0
  }

  /** Every beam of every good packet is a hit, a miss, or a beam that nobody wants: good packets times beams. */
  predicate BeamsBalance(cfg: Config, s: State) {
    var c := All(s);
    s.asm.work != Crashed ==>
      At(c.good, |cfg.shape.beamIds|, 0) == c.hits + c.misses + c.beamMismatch + Remaining(cfg, s.asm.work)
  }

  /** First in, first out, with nothing lost: what went into the ring comes out in the same order. */
  predicate InOrder(s: State) {
    s.accepted == s.judged + s.asm.list + Flat(s.ring)
  }

  predicate Flags(cfg: Config, s: State) {
    && |s.ring| <= cfg.capacity
    && !Full(cfg, s.net.list)
    && (s.net.done ==> s.net.list == [] && s.net.counts == NoCounts()) && (s.ringEnded <==> s.net.done)
    && s.net.rejected <= 1 && (s.net.rejected == 1 ==> s.net.done)
    && (s.asm.work.Splitting? || s.asm.work.Pushing? || s.asm.work == Resting || s.asm.work == Crashed
        || (s.asm.list == [] && s.ring == [] && s.ringEnded))
    && (s.asm.work == Finished ==> s.asm.counts == NoCounts())
  }

  /** The packet in hand is a packet of the stream, and a push that is under way is that of its part. */
  predicate InHand(cfg: Config, a: Assembler) {
    match a.work
    case Splitting(p, ib) => StreamPacket(cfg.shape, p) && ib < |cfg.shape.beamIds|
    case Pushing(p, ib, ix) =>
      && StreamPacket(cfg.shape, p) && ib < |cfg.shape.beamIds|
      && ix < |a.beams| && PartOfBeam(cfg.shape, ix, BeamPart(p, ib))
      && Waiting(a.beams[ix]) && a.beams[ix].asm.pc.next.ichunk == ChunkOf(cfg.shape, BeamPart(p, ib))
    case _ => true
  }

  /** The part numbered n of a beam is the one its ring buffer has logged as number n. */
  predicate PartsLogged(sh: Shape, ix: nat, r: M.State, parts: seq<Packet>) {
    && |parts| == |r.asm.log| && sh.rings.fpgaPerSample > 0
    && forall n :: 0 <= n < |parts| ==> PartOfBeam(sh, ix, parts[n]) && r.asm.log[n].ichunk == ChunkOf(sh, parts[n])
  }

  ghost predicate BeamInv(cfg: Config, truths: Truths, a: Assembler, ix: nat)
    requires ix < |truths|
  {
    && ix < |a.beams| && ix < |a.parts|
    && Reachable(cfg.shape.rings, a.beams[ix], truths[ix])
    && (a.beams[ix].asm.pc.Resting? || (a.work.Pushing? && a.work.ix == ix))
    && PartsLogged(cfg.shape, ix, a.beams[ix], a.parts[ix])
  }

  ghost predicate BeamsInv(cfg: Config, truths: Truths, a: Assembler) {
    && |a.beams| == |a.parts| == |truths| == |cfg.shape.beamIds|
    && InHand(cfg, a)
    && (a.work.Ending? ==> a.work.ix <= |a.beams|)
    && (a.work != Crashed ==> forall ix :: 0 <= ix < |truths| ==> BeamInv(cfg, truths, a, ix))
  }

  predicate Books(cfg: Config, s: State) {
    PacketsBalance(s) && BeamsBalance(cfg, s) && InOrder(s)
  }

  ghost predicate Inv(cfg: Config, truths: Truths, s: State) {
    Books(cfg, s) && Flags(cfg, s) && BeamsInv(cfg, truths, s.asm)
  }

  // ------------------------------------------------------------------------------------------------
  // The network thread keeps them

  lemma FlatPush(r: seq<seq<Bytes>>, l: seq<Bytes>)
    ensures Flat(r + [l]) == Flat(r) + l
  {
    assert (r + [l])[..|r|] == r;
  }

  lemma {:induction false} FlatPop(r: seq<seq<Bytes>>)
    requires r != []
    ensures Flat(r) == r[0] + Flat(r[1..])
  {
    var front, last := r[..|r| - 1], r[|r| - 1];
    if front == [] {
      assert r[1..] == [] && Flat(front) == [];
    } else {
      FlatPop(front);
      hide Flat;
      FlatPush(front, last);
      FlatPush(front[1..], last);
      assert r == front + [last] && r[1..] == front[1..] + [last];
      assert (front[0] + Flat(front[1..])) + last == front[0] + (Flat(front[1..]) + last);
    }
  }

  /** What flushing keeps; the list may be full before. */
  lemma PutKeeps(cfg: Config, s: State)
    requires Books(cfg, s)
    ensures var t := PutList(cfg, s);
            && Books(cfg, t) && t.net.list == [] && t.asm == s.asm && t.ringEnded == s.ringEnded
            && t.net.done == s.net.done && t.net.rejected == s.net.rejected
            && (|s.ring| <= cfg.capacity ==> |t.ring| <= cfg.capacity)
  {
    hide Flat, At;
    FlatPush(s.ring, s.net.list);
    assert s.accepted + s.net.list == s.judged + s.asm.list + (Flat(s.ring) + s.net.list);
  }

  lemma CountsKeep(cfg: Config, s: State)
    requires Books(cfg, s)
    ensures Books(cfg, AddNetworkCounts(s))
  {
    hide Flat, At;
    assert All(AddNetworkCounts(s)) == All(s);
  }

  lemma EmptyListIsNotFull(cfg: Config)
    requires ValidConfig(cfg)
    ensures !Full(cfg, [])
  {
  }

  /** The assembler's flags say nothing new while the network thread is alive. */
  predicate NetworkAlive(cfg: Config, s: State) {
    && |s.ring| <= cfg.capacity && !s.net.done && !s.ringEnded
    && (s.asm.work.Splitting? || s.asm.work.Pushing? || s.asm.work == Resting || s.asm.work == Crashed)
  }

  lemma FlushKeeps(cfg: Config, s: State)
    requires ValidConfig(cfg) && Books(cfg, s) && NetworkAlive(cfg, s) && s.net.rejected == 0
    ensures Books(cfg, Flush(cfg, s)) && Flags(cfg, Flush(cfg, s)) && Flush(cfg, s).asm == s.asm
  {
    hide Books, Full, PutList;
    PutKeeps(cfg, s);
    CountsKeep(cfg, PutList(cfg, s));
    EmptyListIsNotFull(cfg);
  }

  lemma ExitKeeps(cfg: Config, s: State)
    requires ValidConfig(cfg) && Books(cfg, s) && NetworkAlive(cfg, s) && s.net.rejected <= 1
    ensures Books(cfg, NetworkExit(cfg, s)) && Flags(cfg, NetworkExit(cfg, s)) && NetworkExit(cfg, s).asm == s.asm
  {
    hide Full, Flat, At, PutList;
    PutKeeps(cfg, s);
    CountsKeep(cfg, PutList(cfg, s));
    EmptyListIsNotFull(cfg);
  }

  /** A receive counts, and what it counts is accounted for: as an end of stream, as rejected, or as in the list. */
  lemma ReceivedBooks(cfg: Config, s: State, n: Network)
    requires Books(cfg, s)
    requires var c := s.net.counts.(received := s.net.counts.received + 1);
             || n == s.net.(counts := c.(endOfStream := c.endOfStream + 1))
             || n == s.net.(counts := c, rejected := s.net.rejected + 1)
             || (n.list != [] && n.list[..|n.list| - 1] == s.net.list && n == s.net.(counts := c, list := n.list))
    ensures Books(cfg, s.(net := n))
  {
    hide Flat, At, Remaining;
  }

  /** The flags while the network thread is at work. */
  lemma NetworkFlags(cfg: Config, s: State, n: Network)
    requires Flags(cfg, s) && !s.net.done && s.asm.work != Crashed && !n.done && n.rejected == 0 && !Full(cfg, n.list)
    ensures Flags(cfg, s.(net := n)) && NetworkAlive(cfg, s) && s.net.rejected == 0
  {
    hide Full;
  }

  lemma ReceiveKeeps(cfg: Config, s: State, p: Bytes)
    requires ValidConfig(cfg) && Books(cfg, s) && Flags(cfg, s) && Enabled(cfg, s, Receive(p))
    ensures var t := ReceivePacket(cfg, s, p); Books(cfg, t) && Flags(cfg, t) && t.asm == s.asm
  {
    EmptyListIsNotFull(cfg);
    NetworkFlags(cfg, s, s.net.(list := [], rejected := 0));
    assert !Full(cfg, s.net.list) && s.net.rejected == 0;
    hide Full, Flush, NetworkExit, Books, Flags;
    var c := s.net.counts.(received := s.net.counts.received + 1);
    if |p| == END_OF_STREAM_SIZE {
      var n := s.net.(counts := c.(endOfStream := c.endOfStream + 1));
      ReceivedBooks(cfg, s, n);
      NetworkFlags(cfg, s, n);
      if cfg.acceptEndOfStream { ExitKeeps(cfg, s.(net := n)); }
    } else if |p| == 0 || |p| > MAX_INPUT_PACKET_SIZE {
      var n := s.net.(counts := c, rejected := s.net.rejected + 1);
      ReceivedBooks(cfg, s, n);
      ExitKeeps(cfg, s.(net := n));
    } else {
      var n := s.net.(counts := c, list := s.net.list + [p]);
      ReceivedBooks(cfg, s, n);
      if Full(cfg, n.list) { FlushKeeps(cfg, s.(net := n)); } else { NetworkFlags(cfg, s, n); }
    }
  }

  // ------------------------------------------------------------------------------------------------
  // So does the assembler thread

  lemma TakeKeeps(cfg: Config, s: State, truths: Truths)
    requires Books(cfg, s) && Flags(cfg, s) && Enabled(cfg, s, TakeList) && |truths| == |cfg.shape.beamIds|
    ensures Books(cfg, Step(cfg, s, TakeList, truths)) && Flags(cfg, Step(cfg, s, TakeList, truths))
  {
    hide Flat, Full, At;
    FlatPop(s.ring);
    assert s.judged + s.ring[0] + Flat(s.ring[1..]) == s.judged + [] + (s.ring[0] + Flat(s.ring[1..]));
  }

  lemma OneMoreGood(good: nat, nbeams: nat)
    ensures At(good + 1, nbeams, 0) == At(good, nbeams, 0) + nbeams
  {
    NextItem(good, nbeams);
  }

  /** What judging a packet can do to the assembler. */
  lemma JudgeCases(cfg: Config, a: Assembler)
    requires a.list != []
    ensures var b, c, rest := JudgeFirst(cfg, a), a.counts, a.list[1..];
            || b == a.(work := Crashed)
            || b == a.(list := rest, counts := c.(bad := c.bad + 1))
            || b == a.(list := rest, counts := c.(mismatch := c.mismatch + 1))
            || (b.work.Splitting? && b == a.(list := rest, counts := c.(good := c.good + 1), work := Splitting(b.work.packet, 0)))
  {
    hide Judge;
  }

  lemma JudgedBooks(cfg: Config, s: State, b: Assembler)
    requires Books(cfg, s) && s.asm.work == Resting && s.asm.list != []
    requires b == s.asm.(list := s.asm.list[1..], counts := b.counts, work := b.work)
    requires var c := s.asm.counts;
             || (b.work == Resting && b.counts == c.(bad := c.bad + 1))
             || (b.work == Resting && b.counts == c.(mismatch := c.mismatch + 1))
             || (b.work.Splitting? && b.work.ib == 0 && b.counts == c.(good := c.good + 1))
    ensures Books(cfg, s.(asm := b, judged := s.judged + [s.asm.list[0]]))
  {
    hide Flat, At;
    OneMoreGood(All(s).good, |cfg.shape.beamIds|);
    assert s.asm.list == [s.asm.list[0]] + s.asm.list[1..];
    assert s.judged + s.asm.list == (s.judged + [s.asm.list[0]]) + s.asm.list[1..];
  }

  lemma CrashedBooks(cfg: Config, s: State)
    requires Books(cfg, s) && Flags(cfg, s)
    ensures var t := s.(asm := s.asm.(work := Crashed)); Books(cfg, t) && Flags(cfg, t)
  {
    hide Flat, Full, At, Remaining;
  }

  /** The flags while the assembler is at work on its list. */
  lemma AtWorkFlags(cfg: Config, s: State, t: State)
    requires Flags(cfg, s) && t.net == s.net && t.ring == s.ring && t.ringEnded == s.ringEnded
    requires t.asm.work == Resting || t.asm.work.Splitting? || t.asm.work.Pushing?
    ensures Flags(cfg, t)
  {
    hide Full;
  }

  lemma JudgeBooks(cfg: Config, s: State, truths: Truths)
    requires Books(cfg, s) && Flags(cfg, s) && Enabled(cfg, s, JudgePacket) && |truths| == |cfg.shape.beamIds|
    ensures var t := Step(cfg, s, JudgePacket, truths); Books(cfg, t) && Flags(cfg, t)
  {
    JudgeCases(cfg, s.asm);
    var t := Step(cfg, s, JudgePacket, truths);
    hide JudgeFirst, Books, Flags, Full;
    if t.asm.work == Crashed {
      CrashedBooks(cfg, s);
    } else {
      JudgedBooks(cfg, s, t.asm);
      AtWorkFlags(cfg, s, t);
    }
  }

  /** A step that leaves the ring buffers alone. */
  lemma SameBeams(cfg: Config, truths: Truths, a: Assembler, b: Assembler)
    requires BeamsInv(cfg, truths, a) && a.work != Crashed && !a.work.Pushing?
    requires b.beams == a.beams && b.parts == a.parts && InHand(cfg, b) && (b.work.Ending? ==> b.work.ix <= |b.beams|)
    ensures BeamsInv(cfg, truths, b)
  {
    hide InHand, Reachable, PartsLogged;
    forall ix | 0 <= ix < |truths| ensures BeamInv(cfg, truths, b, ix) {
      assert BeamInv(cfg, truths, a, ix);
    }
  }

  lemma JudgedHand(cfg: Config, a: Assembler)
    requires ValidConfig(cfg) && a.list != [] && a.work == Resting
    ensures var b := JudgeFirst(cfg, a);
            && b.beams == a.beams && b.parts == a.parts && InHand(cfg, b)
            && (b.work == Resting || b.work == Crashed || b.work.Splitting?)
  {
    GoodIsOfStream(cfg.shape, a.list[0]);
    hide Judge, StreamPacket;
  }

  lemma JudgeKeeps(cfg: Config, s: State, truths: Truths)
    requires ValidConfig(cfg) && Inv(cfg, truths, s) && Enabled(cfg, s, JudgePacket) && |truths| == |cfg.shape.beamIds|
    ensures Inv(cfg, truths, Step(cfg, s, JudgePacket, truths))
  {
    JudgeBooks(cfg, s, truths);
    JudgedHand(cfg, s.asm);
    hide Books, Flags, BeamsInv, InHand, JudgeFirst;
    SameBeams(cfg, truths, s.asm, JudgeFirst(cfg, s.asm));
  }

  /** A step on one beam's ring buffer leaves the others alone. */
  lemma OneBeamChanged(cfg: Config, truths: Truths, a: Assembler, b: Assembler, ix: nat)
    requires |a.beams| == |a.parts| == |b.beams| == |b.parts| == |truths| && ix < |truths|
    requires forall j :: 0 <= j < |truths| && j != ix ==> b.beams[j] == a.beams[j] && b.parts[j] == a.parts[j]
    requires a.work.Pushing? ==> a.work.ix == ix
    requires forall j :: 0 <= j < |truths| ==> BeamInv(cfg, truths, a, j)
    requires BeamInv(cfg, truths, b, ix)
    ensures forall j :: 0 <= j < |truths| ==> BeamInv(cfg, truths, b, j)
  {
    hide Reachable, PartsLogged;
    forall j | 0 <= j < |truths| ensures BeamInv(cfg, truths, b, j) {
      assert BeamInv(cfg, truths, a, j);
    }
  }

  lemma LogMore(sh: Shape, ix: nat, r: M.State, t: M.State, parts: seq<Packet>, part: Packet)
    requires PartsLogged(sh, ix, r, parts) && PartOfBeam(sh, ix, part) && Logged(r, t, ChunkOf(sh, part))
    ensures PartsLogged(sh, ix, t, parts + [part])
  {
    hide PartOfBeam, ChunkOf;
    forall n | 0 <= n < |parts| + 1
      ensures PartOfBeam(sh, ix, (parts + [part])[n]) && t.asm.log[n].ichunk == ChunkOf(sh, (parts + [part])[n])
    {
      if n < |parts| { assert t.asm.log[..|r.asm.log|][n] == t.asm.log[n]; }
    }
  }

  /** Counts for one beam: what is counted more is what remains less. */
  lemma BeamCounted(cfg: Config, s: State, t: State)
    requires BeamsBalance(cfg, s) && s.asm.work != Crashed && t.asm.work != Crashed
    requires t.total == s.total && t.net.counts == s.net.counts && t.asm.counts.good == s.asm.counts.good
    requires t.asm.counts.hits + t.asm.counts.misses + t.asm.counts.beamMismatch + Remaining(cfg, t.asm.work)
             == s.asm.counts.hits + s.asm.counts.misses + s.asm.counts.beamMismatch + Remaining(cfg, s.asm.work)
    ensures BeamsBalance(cfg, t)
  {
    hide At, Remaining;
  }

  /** What Dealing needs of the step from r to t, for a part of beam ix. */
  predicate Progress(cfg: Config, r: M.State, t: M.State, part: Packet)
    requires cfg.shape.rings.fpgaPerSample > 0
  {
    && (Fine(t) ==> CountsMore(r, t, 1) && Logged(r, t, ChunkOf(cfg.shape, part)))
    && (Waiting(t) ==> CountsMore(r, t, 0) && t.asm.log == r.asm.log && t.asm.pc.next.ichunk == ChunkOf(cfg.shape, part))
    && (t.asm.pc.Resting? || Waiting(t))
  }

  lemma DealingKeeps(cfg: Config, s: State, truths: Truths, p: Packet, ib: nat, ix: nat, part: Packet, t: M.State)
    requires ValidConfig(cfg) && Inv(cfg, truths, s) && s.asm.work != Crashed
    requires s.asm.work == Splitting(p, ib) || s.asm.work == Pushing(p, ib, ix)
    requires StreamPacket(cfg.shape, p) && ib < |cfg.shape.beamIds| && part == BeamPart(p, ib)
    requires ix < |truths| && PartOfBeam(cfg.shape, ix, part)
    requires Reachable(cfg.shape.rings, t, truths[ix]) && Progress(cfg, s.asm.beams[ix], t, part)
    ensures Inv(cfg, truths, s.(asm := Dealing(cfg, s.asm, p, ib, ix, part, t)))
  {
    var a, b := s.asm, Dealing(cfg, s.asm, p, ib, ix, part, t);
    assert BeamInv(cfg, truths, a, ix);
    DealtCounts(cfg, a, p, ib, ix, part, t);
    if b.work != Crashed { DealtBeam(cfg, truths, a, p, ib, ix, part, t); }
    hide StreamPacket, PartOfBeam, BeamInv, BeamPart, Dealing, Remaining, PartsLogged, Progress, Books, Flags, InHand;
    DealtBooks(cfg, s, b);
    if b.work != Crashed {
      AtWorkFlags(cfg, s, s.(asm := b));
      OneBeamChanged(cfg, truths, a, b, ix);
    } else {
      CrashedFlags(cfg, s, b);
    }
  }

  lemma CrashedFlags(cfg: Config, s: State, b: Assembler)
    requires Flags(cfg, s) && b.work == Crashed
    ensures Flags(cfg, s.(asm := b)) && InHand(cfg, b)
  {
    hide Full;
  }

  lemma DealtBooks(cfg: Config, s: State, b: Assembler)
    requires Books(cfg, s) && s.asm.work != Crashed && b.list == s.asm.list
    requires b.counts == s.asm.counts.(hits := b.counts.hits, misses := b.counts.misses)
    requires b.work != Crashed ==>
               b.counts.hits + b.counts.misses + Remaining(cfg, b.work)
               == s.asm.counts.hits + s.asm.counts.misses + Remaining(cfg, s.asm.work)
    ensures Books(cfg, s.(asm := b))
  {
    hide Flat, At, Remaining;
    if b.work != Crashed { BeamCounted(cfg, s, s.(asm := b)); }
  }

  lemma DealtCounts(cfg: Config, a: Assembler, p: Packet, ib: nat, ix: nat, part: Packet, t: M.State)
    requires ix < |a.beams| == |a.parts| && ib < |cfg.shape.beamIds| && cfg.shape.rings.fpgaPerSample > 0
    requires a.work == Splitting(p, ib) || a.work == Pushing(p, ib, ix)
    requires Progress(cfg, a.beams[ix], t, part)
    ensures var b := Dealing(cfg, a, p, ib, ix, part, t);
            && b.list == a.list && b.counts == a.counts.(hits := b.counts.hits, misses := b.counts.misses)
            && (b.work == Crashed || b.work == NextBeam(cfg, p, ib) || b.work == Pushing(p, ib, ix))
            && (b.work != Crashed ==>
                  b.counts.hits + b.counts.misses + Remaining(cfg, b.work) == a.counts.hits + a.counts.misses + Remaining(cfg, a.work))
  {
  }

  /** The ring buffer that was dealt with, and the packet in hand. */
  lemma DealtBeam(cfg: Config, truths: Truths, a: Assembler, p: Packet, ib: nat, ix: nat, part: Packet, t: M.State)
    requires ValidConfig(cfg) && ix < |truths| == |a.beams| == |a.parts| == |cfg.shape.beamIds|
    requires StreamPacket(cfg.shape, p) && ib < |cfg.shape.beamIds| && part == BeamPart(p, ib) && PartOfBeam(cfg.shape, ix, part)
    requires BeamInv(cfg, truths, a, ix) && Reachable(cfg.shape.rings, t, truths[ix]) && Progress(cfg, a.beams[ix], t, part)
    ensures var b := Dealing(cfg, a, p, ib, ix, part, t);
            && |b.beams| == |a.beams| && |b.parts| == |a.parts|
            && (forall j :: 0 <= j < |a.beams| && j != ix ==> b.beams[j] == a.beams[j] && b.parts[j] == a.parts[j])
            && (b.work != Crashed ==> BeamInv(cfg, truths, b, ix) && InHand(cfg, b) && !b.work.Ending? && b.work != Finished)
  {
    hide StreamPacket, PartOfBeam, Reachable, BeamPart, ChunkOf;
    if Fine(t) { LogMore(cfg.shape, ix, a.beams[ix], t, a.parts[ix], part); }
  }

  lemma ArriveProgress(cfg: Config, truths: Truths, a: Assembler, ix: nat, part: Packet)
    requires ValidConfig(cfg) && ValidTruths(cfg, truths) && ix < |truths| && BeamInv(cfg, truths, a, ix) && a.work.Splitting?
    ensures var t := M.Take(cfg.shape.rings, a.beams[ix], M.StepArrive(ChunkOf(cfg.shape, part)), truths[ix]);
            Reachable(cfg.shape.rings, t, truths[ix]) && Progress(cfg, a.beams[ix], t, part)
  {
    ArriveOutcome(cfg.shape.rings, a.beams[ix], ChunkOf(cfg.shape, part), truths[ix]);
    hide ChunkOf, M.Take, Reachable, PartsLogged, CountsMore, Logged;
  }

  lemma DealKeeps(cfg: Config, s: State, truths: Truths)
    requires ValidConfig(cfg) && ValidTruths(cfg, truths) && Inv(cfg, truths, s) && Enabled(cfg, s, DealBeam)
    ensures Inv(cfg, truths, Step(cfg, s, DealBeam, truths))
  {
    HandAndBeams(cfg, truths, s);
    var p, ib := s.asm.work.packet, s.asm.work.ib;
    StreamBeams(cfg.shape, p);
    SplitPart(cfg.shape, p, ib);
    hide StreamPacket, PartOfBeam, Reachable, BeamPart, ChunkOf, Inv, Dealing, Consistent, M.Take, Progress, BeamInv, ValidTruths, ValidConfig;
    var part := BeamPart(p, ib);
    var ix := FirstMatch(cfg.shape.beamIds, part.beamIds[0]);
    if ix < |cfg.shape.beamIds| {
      ArriveProgress(cfg, truths, s.asm, ix, part);
      DealingKeeps(cfg, s, truths, p, ib, ix, part,
                   M.Take(cfg.shape.rings, s.asm.beams[ix], M.StepArrive(ChunkOf(cfg.shape, part)), truths[ix]));
    } else {
      NobodysBeam(cfg, s, truths, p, ib);
    }
  }

  /** The packet in hand, and all ring buffers. */
  lemma HandAndBeams(cfg: Config, truths: Truths, s: State)
    requires ValidConfig(cfg) && ValidTruths(cfg, truths) && Inv(cfg, truths, s) && s.asm.work.Splitting?
    ensures StreamPacket(cfg.shape, s.asm.work.packet) && s.asm.work.ib < |cfg.shape.beamIds| == |truths| == |s.asm.beams| == |s.asm.parts|
    ensures forall ix :: 0 <= ix < |truths| ==> BeamInv(cfg, truths, s.asm, ix)
    ensures ValidShape(cfg.shape) && cfg.shape.rings.fpgaPerSample > 0
  {
    hide StreamPacket, BeamInv, Books, Flags;
  }

  lemma StreamBeams(sh: Shape, p: Packet)
    requires StreamPacket(sh, p)
    ensures Consistent(p) && p.h.nbeams == |sh.beamIds|
  {
  }

  /** No assembler for this beam. */
  lemma NobodysBeam(cfg: Config, s: State, truths: Truths, p: Packet, ib: nat)
    requires Inv(cfg, truths, s) && s.asm.work == Splitting(p, ib)
    ensures Inv(cfg, truths, s.(asm := s.asm.(counts := s.asm.counts.(beamMismatch := s.asm.counts.beamMismatch + 1),
                                             work := NextBeam(cfg, p, ib))))
  {
    var b := s.asm.(counts := s.asm.counts.(beamMismatch := s.asm.counts.beamMismatch + 1), work := NextBeam(cfg, p, ib));
    hide StreamPacket, BeamInv, Flat, Full, At, Flags;
    BeamCounted(cfg, s, s.(asm := b));
    AtWorkFlags(cfg, s, s.(asm := b));
    SameBeams(cfg, truths, s.asm, b);
  }

  lemma CommitKeeps(cfg: Config, s: State, truths: Truths)
    requires ValidConfig(cfg) && ValidTruths(cfg, truths) && Inv(cfg, truths, s) && Enabled(cfg, s, CommitPush)
    ensures Inv(cfg, truths, Step(cfg, s, CommitPush, truths))
  {
    hide StreamPacket, PartOfBeam, Reachable, BeamPart, ChunkOf, Flat, Full, At, Books, Flags, Dealing, Consistent;
    var p, ib, ix := s.asm.work.packet, s.asm.work.ib, s.asm.work.ix;
    assert BeamInv(cfg, truths, s.asm, ix);
    CommitOutcome(cfg.shape.rings, s.asm.beams[ix], truths[ix]);
    DealingKeeps(cfg, s, truths, p, ib, ix, BeamPart(p, ib), M.Take(cfg.shape.rings, s.asm.beams[ix], M.StepCommit, truths[ix]));
  }

  lemma EndKeeps(cfg: Config, s: State, truths: Truths)
    requires ValidConfig(cfg) && ValidTruths(cfg, truths) && Inv(cfg, truths, s) && Enabled(cfg, s, EndBeam)
    ensures Inv(cfg, truths, Step(cfg, s, EndBeam, truths))
  {
    hide StreamPacket, PartOfBeam, Reachable, BeamPart, ChunkOf, Flat, Full, At, PartsLogged, Ended;
    var t := Step(cfg, s, EndBeam, truths);
    var ix := s.asm.work.ix;
    if ix < |s.asm.beams| {
      assert BeamInv(cfg, truths, s.asm, ix);
      EndOutcome(cfg.shape.rings, s.asm.beams[ix], truths[ix]);
      if t.asm.work != Crashed {
        EndKeepsLog(cfg.shape, ix, s.asm.beams[ix], truths[ix], s.asm.parts[ix]);
        OneBeamChanged(cfg, truths, s.asm, t.asm, ix);
      }
    } else {
      assert All(t) == All(s);
      forall j | 0 <= j < |truths| ensures BeamInv(cfg, truths, t.asm, j) {
        assert BeamInv(cfg, truths, s.asm, j);
      }
    }
  }

  /** Ending a stream logs no packet. */
  lemma EndKeepsLog(sh: Shape, ix: nat, r: M.State, truth: nat -> T.Mask, parts: seq<Packet>)
    requires GoodConfig(sh, r, truth) && PartsLogged(sh, ix, r, parts)
    ensures PartsLogged(sh, ix, Ended(sh.rings, r, truth), parts)
    ensures var t := Ended(sh.rings, r, truth); t.asm.hits == r.asm.hits && t.asm.misses == r.asm.misses
  {
    StartsReady(sh.rings, r, 0, truth);
    EndResultIsEnded(sh.rings, r, truth);
    EndLogsNothing(sh.rings, r);
  }

  ghost predicate GoodConfig(sh: Shape, r: M.State, truth: nat -> T.Mask) {
    M.GoodConfig(sh.rings) && M.TruthShaped(truth, sh.rings.nrf) && Reachable(sh.rings, r, truth) && r.asm.pc.Resting?
  }

  lemma EndLogsNothing(cfg: M.Config, r: M.State)
    requires EndReady(cfg, r)
    ensures var t := EndResult(cfg, r); t.asm.log == r.asm.log && t.asm.hits == r.asm.hits && t.asm.misses == r.asm.misses
  {
  }

  /** The books and the flags do not depend on the ring buffers. */
  lemma BooksIgnoreBeams(cfg: Config, s: State, beams: seq<M.State>)
    requires Books(cfg, s) && Flags(cfg, s)
    ensures var t := s.(asm := s.asm.(beams := beams)); Books(cfg, t) && Flags(cfg, t)
  {
    hide Flat, Full, At, Remaining;
    assert All(s.(asm := s.asm.(beams := beams))) == All(s);
  }

  lemma OtherKeeps(cfg: Config, s: State, truths: Truths, ix: nat, step: M.Step)
    requires ValidConfig(cfg) && ValidTruths(cfg, truths) && Inv(cfg, truths, s) && Enabled(cfg, s, Other(ix, step))
    ensures Inv(cfg, truths, Step(cfg, s, Other(ix, step), truths))
  {
    hide StreamPacket, PartOfBeam, Reachable, BeamPart, ChunkOf, M.Take, Books, Flags, PartsLogged;
    var r := M.Take(cfg.shape.rings, s.asm.beams[ix], step, truths[ix]);
    assert BeamInv(cfg, truths, s.asm, ix);
    OtherOutcome(cfg.shape.rings, s.asm.beams[ix], step, truths[ix]);
    SameLog(cfg.shape, ix, s.asm.beams[ix], r, s.asm.parts[ix]);
    BooksIgnoreBeams(cfg, s, s.asm.beams[ix := r]);
    var b := s.asm.(beams := s.asm.beams[ix := r]);
    forall j | 0 <= j < |truths| ensures BeamInv(cfg, truths, b, j) {
      assert BeamInv(cfg, truths, s.asm, j);
    }
  }

  lemma SameLog(sh: Shape, ix: nat, r: M.State, t: M.State, parts: seq<Packet>)
    requires PartsLogged(sh, ix, r, parts) && t.asm == r.asm
    ensures PartsLogged(sh, ix, t, parts)
  {
    hide PartOfBeam, ChunkOf;
  }

  lemma SameAssembler(cfg: Config, truths: Truths, s: State, t: State)
    requires BeamsInv(cfg, truths, s.asm) && t.asm == s.asm && Books(cfg, t) && Flags(cfg, t)
    ensures Inv(cfg, truths, t)
  {
  }

  lemma SmallBooks(cfg: Config, s: State, a: Action, truths: Truths)
    requires Books(cfg, s) && Flags(cfg, s) && Enabled(cfg, s, a) && |truths| == |cfg.shape.beamIds|
    requires a == NetworkCounts || a == AssemblerCounts || a == BeginEnd
    ensures Books(cfg, Step(cfg, s, a, truths)) && Flags(cfg, Step(cfg, s, a, truths))
  {
    hide Flat, Full, At;
    assert All(Step(cfg, s, a, truths)) == All(s);
  }

  lemma SmallSteps(cfg: Config, s: State, a: Action, truths: Truths)
    requires Inv(cfg, truths, s) && Enabled(cfg, s, a) && |truths| == |cfg.shape.beamIds|
    requires a == NetworkCounts || a == AssemblerCounts || a == BeginEnd || a == TakeList
    ensures Inv(cfg, truths, Step(cfg, s, a, truths))
  {
    if a == TakeList { TakeKeeps(cfg, s, truths); } else { SmallBooks(cfg, s, a, truths); }
    var t := Step(cfg, s, a, truths);
    hide Books, Flags, BeamsInv;
    if a == NetworkCounts {
      assert t.asm == s.asm;
    } else {
      SameBeams(cfg, truths, s.asm, t.asm);
    }
  }

  lemma StepKeeps(cfg: Config, s: State, a: Action, truths: Truths)
    requires ValidConfig(cfg) && ValidTruths(cfg, truths) && Inv(cfg, truths, s) && Enabled(cfg, s, a)
    ensures Inv(cfg, truths, Step(cfg, s, a, truths))
  {
    hide Flat, Full, At, Books, BeamsInv, PutList;
    match a
    case Receive(p) => ReceiveKeeps(cfg, s, p); SameAssembler(cfg, truths, s, Step(cfg, s, a, truths));
    case Timeout => FlushKeeps(cfg, s); SameAssembler(cfg, truths, s, Step(cfg, s, a, truths));
    case Cancel => ExitKeeps(cfg, s); SameAssembler(cfg, truths, s, Step(cfg, s, a, truths));
    case JudgePacket => hide Step; JudgeKeeps(cfg, s, truths);
    case DealBeam => hide Step; DealKeeps(cfg, s, truths);
    case CommitPush => hide Step; CommitKeeps(cfg, s, truths);
    case EndBeam => hide Step; EndKeeps(cfg, s, truths);
    case Other(ix, step) => hide Step; OtherKeeps(cfg, s, truths, ix, step);
    case _ => hide Step; SmallSteps(cfg, s, a, truths);
  }

  lemma InitiallyInv(cfg: Config, truths: Truths)
    requires ValidConfig(cfg) && ValidTruths(cfg, truths)
    ensures Inv(cfg, truths, Initial(cfg))
  {
    EmptyListIsNotFull(cfg);
    var s := Initial(cfg);
    assert At(0, |cfg.shape.beamIds|, 0) == 0 && Flat([]) == [];
    hide Flat, Full, At, M.Initial;
    forall ix | 0 <= ix < |truths| ensures BeamInv(cfg, truths, s.asm, ix) {
      InitialReachable(cfg.shape.rings, truths[ix]);
      StartsEmpty(cfg.shape.rings);
    }
  }

  lemma StartsEmpty(cfg: M.Config)
    ensures M.Initial(cfg).asm.log == [] && M.Initial(cfg).asm.pc.Resting?
  {
  }

  /** Every run keeps the books, the order, and what is known of each beam. */
  lemma {:induction false} RunKeeps(cfg: Config, truths: Truths, actions: seq<Action>)
    requires ValidConfig(cfg) && ValidTruths(cfg, truths)
    ensures Inv(cfg, truths, Run(cfg, truths, actions))
  {
    hide Inv, Step, Enabled, Initial;
    if actions == [] {
      InitiallyInv(cfg, truths);
    } else {
      var s, a := Run(cfg, truths, actions[..|actions| - 1]), actions[|actions| - 1];
      RunKeeps(cfg, truths, actions[..|actions| - 1]);
      if Enabled(cfg, s, a) { StepKeeps(cfg, s, a, truths); }
    }
  }

  // ------------------------------------------------------------------------------------------------
  // What every run guarantees

  /**
    Packet accounting, at every moment of every run in which nothing has been thrown: every received packet is in one
    class or in flight, and at a packet boundary every beam of every good packet has been counted once.
  */
  lemma Accounts(cfg: Config, truths: Truths, actions: seq<Action>)
    requires ValidConfig(cfg) && ValidTruths(cfg, truths)
    ensures var s := Run(cfg, truths, actions);
            && PacketsBalance(s) && InOrder(s)
            && (s.asm.work == Resting || s.asm.work.Ending? || s.asm.work == Finished ==>
                  At(All(s).good, |cfg.shape.beamIds|, 0) == All(s).hits + All(s).misses + All(s).beamMismatch)
  {
    RunKeeps(cfg, truths, actions);
    hide At, Flat, Flags, BeamsInv, PacketsBalance, InOrder;
  }

  /** A regular end: every accepted packet has been judged, and the cumulative counts balance by themselves. */
  lemma EverythingDrains(cfg: Config, truths: Truths, actions: seq<Action>)
    requires ValidConfig(cfg) && ValidTruths(cfg, truths)
    ensures var s := Run(cfg, truths, actions);
            s.asm.work == Finished ==>
              && s.judged == s.accepted
              && s.total.received == s.total.endOfStream + s.net.rejected + s.total.dropped + s.total.bad + s.total.mismatch + s.total.good
              && At(s.total.good, |cfg.shape.beamIds|, 0) == s.total.hits + s.total.misses + s.total.beamMismatch
  {
    RunKeeps(cfg, truths, actions);
    hide Run, Books, Flags, BeamsInv;
    if Run(cfg, truths, actions).asm.work == Finished { FinishedBalances(cfg, Run(cfg, truths, actions)); }
  }

  lemma FinishedBalances(cfg: Config, s: State)
    requires Books(cfg, s) && Flags(cfg, s) && s.asm.work == Finished
    ensures s.judged == s.accepted
    ensures s.total.received == s.total.endOfStream + s.net.rejected + s.total.dropped + s.total.bad + s.total.mismatch + s.total.good
    ensures At(s.total.good, |cfg.shape.beamIds|, 0) == s.total.hits + s.total.misses + s.total.beamMismatch
  {
    AllIsTotal(s);
    assert Flat([]) == [] && s.ring == [];
    hide At, Flat, Full, All, Plus, NoCounts;
    assert s.judged + s.asm.list + Flat(s.ring) == s.judged;
  }

  lemma AllIsTotal(s: State)
    requires s.net.counts == NoCounts() && s.asm.counts == NoCounts()
    ensures All(s) == s.total
  {
  }

  /** No step of the assembler thread is missing: while it is not waiting for the network thread, it can go on. */
  lemma AssemblerCanGoOn(cfg: Config, truths: Truths, actions: seq<Action>)
    requires ValidConfig(cfg) && ValidTruths(cfg, truths)
    ensures GoesOn(cfg, Run(cfg, truths, actions))
  {
    RunKeeps(cfg, truths, actions);
    hide Run, Books, Flags, BeamsInv, GoesOn;
    ThreadGoesOn(cfg, truths, Run(cfg, truths, actions));
  }

  predicate GoesOn(cfg: Config, s: State) {
    || s.asm.work == Crashed || s.asm.work == Finished
    || (s.asm.work == Resting && s.asm.list == [] && s.ring == [] && !s.ringEnded)
    || Enabled(cfg, s, TakeList) || Enabled(cfg, s, JudgePacket) || Enabled(cfg, s, DealBeam)
    || Enabled(cfg, s, CommitPush) || Enabled(cfg, s, BeginEnd) || Enabled(cfg, s, EndBeam)
  }

  lemma ThreadGoesOn(cfg: Config, truths: Truths, s: State)
    requires ValidConfig(cfg) && BeamsInv(cfg, truths, s.asm)
    ensures GoesOn(cfg, s)
  {
    hide BeamInv, PartOfBeam, Waiting, ChunkOf;
    match s.asm.work
    case Splitting(p, ib) =>
      StreamBeams(cfg.shape, p);
      SplitPart(cfg.shape, p, ib);
      hide StreamPacket, Consistent, BeamPart;
      assert Enabled(cfg, s, DealBeam);
    case Pushing(p, ib, ix) =>
      StreamBeams(cfg.shape, p);
      hide StreamPacket, Consistent, BeamPart;
      assert Enabled(cfg, s, CommitPush);
    case Ending(_) => assert Enabled(cfg, s, EndBeam);
    case _ =>
  }

  /** The end of the streams throws at the first beam for which no packet has ever come. */
  lemma QuietBeamStopsTheEnd(cfg: Config, truths: Truths, actions: seq<Action>)
    requires ValidConfig(cfg) && ValidTruths(cfg, truths)
    requires var s := Run(cfg, truths, actions);
             s.asm.work.Ending? && s.asm.work.ix < |s.asm.beams| && !s.asm.beams[s.asm.work.ix].asm.started
    ensures var s := Run(cfg, truths, actions);
            Enabled(cfg, s, EndBeam) && Step(cfg, s, EndBeam, truths).asm.work == Crashed
  {
    RunKeeps(cfg, truths, actions);
    hide Run, Books, Flags, BeamsInv;
    QuietBeam(cfg, truths, Run(cfg, truths, actions));
  }

  lemma QuietBeam(cfg: Config, truths: Truths, s: State)
    requires ValidConfig(cfg) && ValidTruths(cfg, truths) && BeamsInv(cfg, truths, s.asm)
    requires s.asm.work.Ending? && s.asm.work.ix < |s.asm.beams| && !s.asm.beams[s.asm.work.ix].asm.started
    ensures Enabled(cfg, s, EndBeam) && Step(cfg, s, EndBeam, truths).asm.work == Crashed
  {
    hide InHand, PartsLogged, Ended;
    var ix := s.asm.work.ix;
    assert BeamInv(cfg, truths, s.asm, ix);
    ReachableInv(cfg.shape.rings, s.asm.beams[ix], truths[ix]);
    hide M.Inv, Reachable;
    NotStartedNotDone(cfg.shape.rings, s.asm.beams[ix], truths[ix]);
  }

  lemma NotStartedNotDone(cfg: M.Config, r: M.State, truth: nat -> T.Mask)
    requires M.Inv(cfg, r, truth) && r.asm.pc.Resting? && !r.asm.started
    ensures !Ended(cfg, r, truth).asm.done
  {
    EndBeforeFirstPacket(cfg, r, truth);
  }

  /** The largest datagram that a receive call can deliver fits behind the list if packets may have up to 9000 bytes. */
  lemma ReceiveFits(cfg: Config, truths: Truths, actions: seq<Action>)
    requires ValidConfig(cfg) && ValidTruths(cfg, truths) && cfg.maxPacketSize <= MAX_INPUT_PACKET_SIZE
    ensures var s := Run(cfg, truths, actions);
            |s.net.list| < cfg.maxNpackets && Size(s.net.list) + (cfg.maxPacketSize + 1) <= cfg.maxNbytes + MAX_INPUT_PACKET_SIZE
  {
    RunKeeps(cfg, truths, actions);
    hide Books, BeamsInv, Run;
  }

  /** What a list can hold: packets of 1 to 9000 bytes, none of them as long as an end of stream. */
  predicate Storable(l: seq<Bytes>) {
    l == [] || (Storable(l[..|l| - 1]) && 0 < |l[|l| - 1]| <= MAX_INPUT_PACKET_SIZE && |l[|l| - 1]| != END_OF_STREAM_SIZE)
  }

  /** The most bytes in a list that is not full. */
  function MostBytes(cfg: Config): nat
    requires ValidConfig(cfg)
  {
    var byPackets := MAX_INPUT_PACKET_SIZE * (cfg.maxNpackets - 1);
    if cfg.maxNbytes - 1 > byPackets then byPackets
    else if cfg.maxNbytes - 1 == END_OF_STREAM_SIZE && cfg.maxNpackets == 2 then END_OF_STREAM_SIZE - 1
    else cfg.maxNbytes - 1
  }

  lemma {:induction false} StorableSize(l: seq<Bytes>)
    requires Storable(l)
    ensures Size(l) <= MAX_INPUT_PACKET_SIZE * |l|
    ensures |l| == 1 ==> Size(l) != END_OF_STREAM_SIZE
  {
    if l != [] { StorableSize(l[..|l| - 1]); }
  }

  lemma NotFullSize(cfg: Config, l: seq<Bytes>)
    requires ValidConfig(cfg) && Storable(l) && !Full(cfg, l)
    ensures Size(l) <= MostBytes(cfg)
  {
    StorableSize(l);
    assert Size([]) == 0;
  }

  lemma StepStorable(cfg: Config, s: State, a: Action, truths: Truths)
    requires |truths| == |cfg.shape.beamIds| && Enabled(cfg, s, a) && Storable(s.net.list)
    ensures Storable(Step(cfg, s, a, truths).net.list)
  {
    hide Deal, Commit, EndOne, JudgeFirst, M.Take, Full, Plus;
    if a.Receive? { assert (s.net.list + [a.packet])[..|s.net.list|] == s.net.list; }
  }

  lemma {:induction false} RunStorable(cfg: Config, truths: Truths, actions: seq<Action>)
    requires |truths| == |cfg.shape.beamIds|
    ensures Storable(Run(cfg, truths, actions).net.list)
  {
    assert Storable([]);
    hide Step, Enabled, Storable;
    if actions != [] {
      var s, a := Run(cfg, truths, actions[..|actions| - 1]), actions[|actions| - 1];
      RunStorable(cfg, truths, actions[..|actions| - 1]);
      if Enabled(cfg, s, a) { StepStorable(cfg, s, a, truths); }
    }
  }

  /** A packet of n bytes. */
  function Zeros(n: nat): (b: Bytes)
    ensures |b| == n
  {
    if n == 0 then [] else Zeros(n - 1) + [0]
  }

  /** The size of the last of the packets that make up n bytes. */
  function LastSize(n: nat): (k: nat)
    requires n > 0
    ensures 0 < k <= n && k <= MAX_INPUT_PACKET_SIZE && k != END_OF_STREAM_SIZE
  {
    if n == END_OF_STREAM_SIZE then 1
    else if n <= MAX_INPUT_PACKET_SIZE then n
    else if n == MAX_INPUT_PACKET_SIZE + END_OF_STREAM_SIZE then MAX_INPUT_PACKET_SIZE - 1
    else MAX_INPUT_PACKET_SIZE
  }

  /** As few packets as possible with n bytes in all. */
  function Packed(n: nat): seq<Bytes> {
    if n == 0 then [] else Packed(n - LastSize(n)) + [Zeros(LastSize(n))]
  }

  lemma {:induction false} PackedSize(n: nat)
    ensures Size(Packed(n)) == n
  {
    if n > 0 {
      var k := LastSize(n);
      PackedSize(n - k);
      assert Packed(n)[..|Packed(n)| - 1] == Packed(n - k);
    }
  }

  lemma {:induction false} PackedCount(n: nat, m: nat)
    requires n <= MAX_INPUT_PACKET_SIZE * m && !(n == END_OF_STREAM_SIZE && m == 1)
    ensures |Packed(n)| <= m
  {
    if n > 0 {
      if n == END_OF_STREAM_SIZE {
        assert Packed(END_OF_STREAM_SIZE - 1) == Packed(0) + [Zeros(END_OF_STREAM_SIZE - 1)];
      } else {
        PackedCount(n - LastSize(n), m - 1);
      }
    }
  }

  function Receiving(l: seq<Bytes>): (a: seq<Action>)
    ensures |a| == |l|
  {
    if l == [] then [] else Receiving(l[..|l| - 1]) + [Receive(l[|l| - 1])]
  }

  lemma LastAction(cfg: Config, truths: Truths, actions: seq<Action>)
    requires |truths| == |cfg.shape.beamIds| && actions != []
    ensures var a, s := actions[|actions| - 1], Run(cfg, truths, actions[..|actions| - 1]);
            Run(cfg, truths, actions) == if Enabled(cfg, s, a) then Step(cfg, s, a, truths) else s
  {
    hide Enabled, Step;
  }

  lemma PackedLast(n: nat)
    requires n > 0
    ensures var k := LastSize(n);
            && Packed(n) == Packed(n - k) + [Zeros(k)]
            && Receiving(Packed(n)) == Receiving(Packed(n - k)) + [Receive(Zeros(k))]
  {
    var k := LastSize(n);
    hide LastSize, Zeros;
    assert Packed(n)[..|Packed(n)| - 1] == Packed(n - k);
  }

  /** The network thread is alive and has just these packets in its list; the assembler thread rests. */
  predicate Holding(s: State, l: seq<Bytes>) {
    s.net.list == l && !s.net.done && s.asm.work == Resting
  }

  lemma HoldingNothing(cfg: Config, truths: Truths)
    requires |truths| == |cfg.shape.beamIds|
    ensures Holding(Run(cfg, truths, []), [])
  {
  }

  /** Packets that do not fill a list stay in it. */
  lemma {:induction false} ReceivingRun(cfg: Config, truths: Truths, n: nat)
    requires |truths| == |cfg.shape.beamIds| && MAX_INPUT_PACKET_SIZE < cfg.maxPacketSize
    requires n < cfg.maxNbytes && |Packed(n)| < cfg.maxNpackets
    ensures Holding(Run(cfg, truths, Receiving(Packed(n))), Packed(n))
  {
    hide Holding, Run, Step, Enabled;
    if n == 0 {
      HoldingNothing(cfg, truths);
    } else {
      var k := LastSize(n);
      PackedLast(n);
      PackedSize(n);
      hide Size, Packed, LastSize, Receiving, Zeros;
      ReceivingRun(cfg, truths, n - k);
      LastAction(cfg, truths, Receiving(Packed(n)));
      ReceivingStep(cfg, Run(cfg, truths, Receiving(Packed(n - k))), truths, Packed(n - k), Zeros(k));
    }
  }

  lemma ReceivingStep(cfg: Config, s: State, truths: Truths, l: seq<Bytes>, p: Bytes)
    requires |truths| == |cfg.shape.beamIds| && Holding(s, l)
    requires 0 < |p| <= MAX_INPUT_PACKET_SIZE < cfg.maxPacketSize && |p| != END_OF_STREAM_SIZE
    requires |l + [p]| < cfg.maxNpackets && Size(l + [p]) < cfg.maxNbytes
    ensures Enabled(cfg, s, Receive(p)) && Holding(Step(cfg, s, Receive(p), truths), l + [p])
  {
    hide Flush, NetworkExit, Size;
  }

  lemma MostBytesFits(cfg: Config)
    requires ValidConfig(cfg)
    ensures MostBytes(cfg) < cfg.maxNbytes && |Packed(MostBytes(cfg))| < cfg.maxNpackets
  {
    PackedCount(MostBytes(cfg), cfg.maxNpackets - 1);
  }

  /**
    Nothing checks the configured size against 9000.  Every receive of every run fits behind its list if and only if the
    largest one fits behind the fullest list that can still receive.
  */
  lemma ReceiveFitsIff(cfg: Config, truths: Truths)
    requires ValidConfig(cfg) && ValidTruths(cfg, truths)
    ensures MostBytes(cfg) + (cfg.maxPacketSize + 1) <= cfg.maxNbytes + MAX_INPUT_PACKET_SIZE <==>
            forall actions :: ReceiveHasRoom(cfg, Run(cfg, truths, actions))
  {
    hide Size, Packed, MostBytes;
    if MostBytes(cfg) + (cfg.maxPacketSize + 1) <= cfg.maxNbytes + MAX_INPUT_PACKET_SIZE {
      forall actions ensures ReceiveHasRoom(cfg, Run(cfg, truths, actions)) {
        var s := Run(cfg, truths, actions);
        RunKeeps(cfg, truths, actions);
        RunStorable(cfg, truths, actions);
        hide Books, BeamsInv, Run, Full, Storable;
        NotFullSize(cfg, s.net.list);
      }
    } else {
      var r := MostBytes(cfg);
      MostBytesFits(cfg);
      ReceivingRun(cfg, truths, r);
      PackedSize(r);
      hide Run;
      assert !ReceiveHasRoom(cfg, Run(cfg, truths, Receiving(Packed(r))));
    }
  }

  /** Where the limit in bytes is what fills a list, as by default (8 MiB, 16384 packets), the limit is 9000. */
  lemma ReceiveFitsIffSmall(cfg: Config, truths: Truths)
    requires ValidConfig(cfg) && ValidTruths(cfg, truths)
    requires cfg.maxNbytes - 1 <= MAX_INPUT_PACKET_SIZE * (cfg.maxNpackets - 1)
    requires cfg.maxNbytes - 1 == END_OF_STREAM_SIZE ==> cfg.maxNpackets > 2
    ensures cfg.maxPacketSize <= MAX_INPUT_PACKET_SIZE <==>
            forall actions :: ReceiveHasRoom(cfg, Run(cfg, truths, actions))
  {
    ReceiveFitsIff(cfg, truths);
  }

  predicate ReceiveHasRoom(cfg: Config, s: State) {
    s.net.done || Size(s.net.list) + (cfg.maxPacketSize + 1) <= cfg.maxNbytes + MAX_INPUT_PACKET_SIZE
  }
}
