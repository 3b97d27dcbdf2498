/**
  What the assembler thread makes of one datagram: the verdict on it, the search for the assembler of each beam, and the
  steps of that assembler's ring buffer.
*/
module BeamAssembly {
  import opened BeamSplit
  import opened BitMatrix
  import C = ChunkAssembly
  import ChunkDelivery
  import opened EncodeBound
  import opened PacketFormat
  import opened Products
  import opened RingCalls
  import opened RingMachine
  import opened RingTheorems
  import T = Telescope

  /** The parameters of the stream: its ring buffers are all configured alike. */
  datatype Shape = Shape(rings: Config, beamIds: seq<nat>, nupfreq: nat, ntp: nat)

  predicate ValidShape(sh: Shape) {
    && GoodConfig(sh.rings) && |sh.beamIds| > 0 && sh.nupfreq > 0 && PowerOfTwo(sh.ntp) && sh.ntp <= T.NT
  }

  datatype Verdict = DivisionByZero | BadPacket | StreamMismatch | GoodPacket(packet: Packet)

  /** Decoding, and the comparison with the parameters of the stream. */
  function Judge(sh: Shape, b: seq<uint8>): Verdict {
    if PlausibleHeader(b) && ReadHeader(b).ntsamp == 0 then DivisionByZero
    else if !Accepts(b) then BadPacket
    else
      AcceptedView(b);
      var p := ReadPacket(b, ViewOf(ReadHeader(b)));
      if p.h.nbeams != |sh.beamIds| || p.h.nupfreq != sh.nupfreq || p.h.ntsamp != sh.ntp
         || p.h.fpgaPerSample != sh.rings.fpgaPerSample then StreamMismatch
      else GoodPacket(p)
  }

  /** A packet of the stream, not split yet. */
  predicate StreamPacket(sh: Shape, p: Packet) {
    && Consistent(p) && Sendable(p)
    && p.h.nbeams == |sh.beamIds| && p.h.nupfreq == sh.nupfreq && p.h.ntsamp == sh.ntp
    && p.h.fpgaPerSample == sh.rings.fpgaPerSample
  }

  /** Good packets are exactly the serializations of packets of the stream. */
  lemma GoodIsOfStream(sh: Shape, b: seq<uint8>)
    ensures Judge(sh, b).GoodPacket? ==> StreamPacket(sh, Judge(sh, b).packet) && Serialize(Judge(sh, b).packet) == b
  {
    hide Serialize, ReadPacket, Consistent, Sendable;
    if Judge(sh, b).GoodPacket? { AcceptedIsSerialized(b); }
  }

  lemma OfStreamIsGood(sh: Shape, p: Packet)
    requires StreamPacket(sh, p)
    ensures Judge(sh, Serialize(p)) == GoodPacket(p)
  {
    hide Serialize, ReadPacket, Consistent;
    SendableIsAccepted(p);
    PositivePower(p.h.ntsamp);
  }

  /** Index of the first assembler with this beam identifier; the number of assemblers if there is none. */
  function FirstMatch(ids: seq<nat>, id: nat): (ix: nat)
    ensures ix <= |ids| && id !in ids[..ix] && (ix < |ids| ==> ids[ix] == id)
  {
    if ids == [] then 0
    else if ids[0] == id then 0
    else
      var ix := FirstMatch(ids[1..], id);
      assert ids[..ix + 1] == [ids[0]] + ids[1..][..ix];
      ix + 1
  }

  /** This is where the loop over the beams of a packet sends a part. */
  lemma MatchIsDelivered(ids: seq<nat>, part: Packet, d: Delivery)
    requires BeamSplit.Delivered(ids, part, d)
    ensures var ix := FirstMatch(ids, part.beamIds[0]);
            d == if ix < |ids| then To(ix, part) else NoMatch(part.beamIds[0])
  {
  }

  /** The chunk that a packet's time stamp falls in. */
  function ChunkOf(sh: Shape, p: Packet): nat
    requires sh.rings.fpgaPerSample > 0
  {
    p.h.fpgaCount / sh.rings.fpgaPerSample / T.NT
  }

  // ------------------------------------------------------------------------------------------------
  // The steps of one ring buffer

  predicate Fine(r: State) {
    r.asm.pc.Resting? && r.asm.active0.Some? && r.asm.active1.Some?
  }

  predicate Waiting(r: State) {
    r.asm.pc.Pushing? && r.asm.pc.next.ThenPacket?
  }

  function Counted(r: State): nat { r.asm.hits + r.asm.misses }

  /** Both counts of t are at least those of r, and together they are n more. */
  predicate CountsMore(r: State, t: State, n: nat) {
    t.asm.hits >= r.asm.hits && t.asm.misses >= r.asm.misses && Counted(t) == Counted(r) + n
  }

  /** A packet that arrives is logged and counted once, or begins a push, or the call throws. */
  lemma ArriveOutcome(cfg: Config, r: State, ichunk: nat, truth: nat -> T.Mask)
    requires GoodConfig(cfg) && TruthShaped(truth, cfg.nrf) && Reachable(cfg, r, truth) && r.asm.pc.Resting?
    ensures var t := Take(cfg, r, StepArrive(ichunk), truth);
            && Reachable(cfg, t, truth)
            && (t.asm.pc.Resting? || (Waiting(t) && t.asm.pc.next.ichunk == ichunk))
            && (Waiting(t) ==> CountsMore(r, t, 0) && t.asm.log == r.asm.log)
            && (Fine(t) ==> CountsMore(r, t, 1) && Logged(r, t, ichunk))
  {
    StepReachable(cfg, r, StepArrive(ichunk), truth);
    ReachableInv(cfg, r, truth);
    PlannableInv(cfg, r.ring, truth);
    var s := Start(cfg, r, ichunk);
    assert s.asm.log == r.asm.log && Counted(s) == Counted(r);
    ReceiveOutcome(cfg, s.ring.levels, s.asm, ichunk);
  }

  predicate Logged(r: State, t: State, ichunk: nat) {
    |t.asm.log| == |r.asm.log| + 1 && t.asm.log[..|r.asm.log|] == r.asm.log && t.asm.log[|r.asm.log|].ichunk == ichunk
  }

  lemma ReceiveOutcome(cfg: Config, levels: seq<seq<T.Chunk>>, a: Assembly, ichunk: nat)
    requires Plannable(cfg, levels) && a.pc.Resting?
    ensures var b := Receive(cfg, levels, a, ichunk);
            && (b.pc.Resting? || (b.pc.Pushing? && b.pc.next == ThenPacket(ichunk)))
            && (b.pc.Pushing? ==> b.hits == a.hits && b.misses == a.misses && b.log == a.log)
            && (b.pc.Resting? && b.active0.Some? && b.active1.Some? ==>
                  && b.hits >= a.hits && b.misses >= a.misses && b.hits + b.misses == a.hits + a.misses + 1
                  && |b.log| == |a.log| + 1 && b.log[..|a.log|] == a.log && b.log[|a.log|].ichunk == ichunk)
  {
  }

  /** The push that an arrival began ends well: the packet is logged and counted then. */
  lemma CommitOutcome(cfg: Config, r: State, truth: nat -> T.Mask)
    requires GoodConfig(cfg) && TruthShaped(truth, cfg.nrf) && Reachable(cfg, r, truth) && Waiting(r)
    ensures var t := Take(cfg, r, StepCommit, truth);
            && Reachable(cfg, t, truth) && Fine(t) && CountsMore(r, t, 1) && Logged(r, t, r.asm.pc.next.ichunk)
  {
    StepReachable(cfg, r, StepCommit, truth);
    ReachableInv(cfg, r, truth);
    CommitKeeps(cfg, r, truth);
  }

  /** The other threads do not touch what the assembler thread owns. */
  lemma OtherOutcome(cfg: Config, r: State, step: Step, truth: nat -> T.Mask)
    requires Reachable(cfg, r, truth) && (step.StepGet? || step.StepFill?)
    ensures Reachable(cfg, Take(cfg, r, step, truth), truth) && Take(cfg, r, step, truth).asm == r.asm
  {
    StepReachable(cfg, r, step, truth);
  }

  /**
    Ending the stream of one beam raises its flag if and only if both chunks of its window can be pushed; otherwise, and
    so before its first packet, the call throws.
  */
  lemma EndOutcome(cfg: Config, r: State, truth: nat -> T.Mask)
    requires GoodConfig(cfg) && TruthShaped(truth, cfg.nrf) && Reachable(cfg, r, truth) && r.asm.pc.Resting?
    ensures var t := Ended(cfg, r, truth); Reachable(cfg, t, truth) && t.asm.pc.Resting?
    ensures !r.asm.done ==> (Ended(cfg, r, truth).asm.done <==> Closable(cfg, r.ring.levels, r.asm))
    ensures !r.asm.started ==> !Closable(cfg, r.ring.levels, r.asm)
  {
    EndsRegularlyIff(cfg, r, truth);
  }

  // ------------------------------------------------------------------------------------------------
  // Parts of packets, and the chunks they belong to

  /** A part that the assembler of beam ix may get. */
  predicate PartOfBeam(sh: Shape, ix: nat, p: Packet) {
    && ix < |sh.beamIds|
    && Consistent(p) && C.FreqsInRange(p) && p.h.nbeams == 1 && |p.beamIds| == 1 && p.beamIds[0] == sh.beamIds[ix]
    && p.h.nupfreq == sh.nupfreq && p.h.ntsamp == sh.ntp && p.h.fpgaPerSample == sh.rings.fpgaPerSample
    && sh.rings.fpgaPerSample * sh.ntp > 0 && p.h.fpgaCount % (sh.rings.fpgaPerSample * sh.ntp) == 0
  }

  lemma PartIsConsistent(p: Packet, ib: nat)
    requires Consistent(p) && Sendable(p) && ib < p.h.nbeams
    ensures Consistent(BeamPart(p, ib))
  {
    hide At, PowerOfTwo;
    BeamInside(p.h, ib);
    OneBeam(p.h);
    BeamBytesAreFew(p, ib);
  }

  lemma BeamBytesAreFew(p: Packet, ib: nat)
    requires Sendable(p) && ib < p.h.nbeams
    ensures BeamBytes(p.h) < 32768
  {
    hide At, PowerOfTwo, HeaderSize, DataBytes, BeamBytes;
    BeamInside(p.h, ib);
  }

  lemma SplitPart(sh: Shape, p: Packet, ib: nat)
    requires ValidShape(sh) && StreamPacket(sh, p) && ib < p.h.nbeams
    ensures |BeamPart(p, ib).beamIds| == 1
    ensures var part := BeamPart(p, ib);
            && part.h.fpgaCount == p.h.fpgaCount
            && var ix := FirstMatch(sh.beamIds, part.beamIds[0]);
            ix < |sh.beamIds| ==> PartOfBeam(sh, ix, part)
  {
    hide At, PowerOfTwo, HeaderSize, DataBytes, BeamBytes;
    PartIsConsistent(p, ib);
    PartHasOneBeam(p, ib);
    ShapeIsPositive(sh);
  }

  lemma ShapeIsPositive(sh: Shape)
    requires ValidShape(sh)
    ensures sh.ntp > 0 && sh.rings.fpgaPerSample > 0 && sh.rings.fpgaPerSample * sh.ntp > 0
  {
    PositivePower(sh.ntp);
    ProductIsPositive(sh.rings.fpgaPerSample, sh.ntp);
  }

  /** The chunk of beam ix with this index. */
  function GeometryOf(sh: Shape, ix: nat, ichunk: nat): C.Geometry
    requires ix < |sh.beamIds|
  {
    C.Geometry(sh.beamIds[ix], sh.nupfreq, sh.ntp, sh.rings.fpgaPerSample, T.NT * ichunk)
  }

  lemma {:induction false} PowersDivide(n: nat, m: nat) returns (q: nat)
    requires PowerOfTwo(n) && PowerOfTwo(m) && n <= m
    ensures m == n * q
  {
    if n == 1 {
      q := m;
    } else if n == m {
      q := 1;
    } else {
      q := PowersDivide(n / 2, m / 2);
      Halves(m, n, q);
    }
  }

  lemma Halves(m: nat, n: nat, q: nat)
    requires m % 2 == 0 && n % 2 == 0 && m / 2 == (n / 2) * q
    ensures m == n * q
  {
    var h := n / 2;
    assert m == 2 * (h * q);
    ThreeFactors(2, h, q);
    assert n == 2 * h;
  }

  lemma ChunkLength()
    ensures PowerOfTwo(T.NT) && T.NT == C.NT_PER_CHUNK
  {
    assert PowerOfTwo(1) && PowerOfTwo(2) && PowerOfTwo(4) && PowerOfTwo(8);
    assert PowerOfTwo(16) && PowerOfTwo(32) && PowerOfTwo(64) && PowerOfTwo(128);
    assert PowerOfTwo(256) && PowerOfTwo(512);
  }

  lemma GeometryIsValid(sh: Shape, ix: nat, ichunk: nat)
    requires ValidShape(sh) && ix < |sh.beamIds|
    ensures C.ValidGeometry(GeometryOf(sh, ix, ichunk))
  {
    hide PowerOfTwo;
    ShapeIsPositive(sh);
    ChunkLength();
    var m := PowersDivide(sh.ntp, T.NT);
    QuotientIs(T.NT, sh.ntp, m, 0);
    ThreeFactors(sh.ntp, m, ichunk);
    QuotientIs(T.NT * ichunk, sh.ntp, m * ichunk, 0);
  }

  /** A part belongs to the chunk that its time stamp falls in, and to no other. */
  lemma PartBelongsToChunk(sh: Shape, ix: nat, p: Packet, ichunk: nat)
    requires ValidShape(sh) && PartOfBeam(sh, ix, p)
    ensures sh.rings.fpgaPerSample > 0 && C.ValidGeometry(GeometryOf(sh, ix, ichunk))
    ensures C.Belongs(GeometryOf(sh, ix, ichunk), p) <==> ChunkOf(sh, p) == ichunk
  {
    hide PowerOfTwo;
    GeometryIsValid(sh, ix, ichunk);
    ShapeIsPositive(sh);
    hide Consistent, C.FreqsInRange;
    var q := ChunkDelivery.FpgaIsAligned(p.h.fpgaCount, sh.rings.fpgaPerSample, sh.ntp);
    C.CoarsePositive(GeometryOf(sh, ix, ichunk));
    ChunkDelivery.WindowFits(p.h.fpgaCount / sh.rings.fpgaPerSample, sh.ntp, q, T.NT / sh.ntp, ichunk);
  }
}
