/**
  The ring buffer of one beam as a concurrent state machine.  The assembler thread receives packets, plans a push
  without the lock and commits it under the lock; between the two, the downstream thread may take chunks and the
  RFI thread may fill masks.  A step is what one thread does between acquiring and releasing the lock, or the
  lock-free work of the assembler thread.
*/
module RingMachine {
  import opened Options
  import opened Products
  import opened Telescope
  import opened TelescopeLaws

  /**
    `caps[l]` is the capacity of level l; `bufsize` is how far the downstream thread may lag; `nrf` the number of
    RFI frequencies (0: no masks are kept); `align` the chunk alignment of the first chunk (0: none).
  */
  datatype Config = Config(caps: seq<nat>, bufsize: nat, nrf: nat, align: nat, fpgaPerSample: nat)

  datatype ConfigResult = Accepted(config: Config) | Rejected

  /** The checks and the capacity arithmetic of the constructor. */
  function Configure(assembled: int, telescoping: seq<int>, nrf: nat, ntAlign: int, fpgaPerSample: nat): (r: ConfigResult)
    ensures r.Accepted? && fpgaPerSample > 0 ==> GoodConfig(r.config)
    ensures r.Accepted? <==>
            && assembled > 0 && ntAlign >= 0 && ntAlign % NT == 0
            && (forall i :: 0 <= i < |telescoping| ==> telescoping[i] >= 2)
            && (telescoping == [] ==> assembled >= 2)
    ensures r.Accepted? ==>
              && |r.config.caps| == (if telescoping == [] then 1 else |telescoping|)
              && r.config.caps[0] == assembled + (if telescoping == [] then 0 else telescoping[0])
              && (forall k :: 0 < k < |telescoping| ==> r.config.caps[k] == telescoping[k])
              && r.config.bufsize == assembled && r.config.nrf == nrf
              && r.config.align * NT == ntAlign && r.config.fpgaPerSample == fpgaPerSample
  {
    if assembled <= 0 then Rejected
    else if ntAlign < 0 || ntAlign % NT != 0 then Rejected
    else if exists i :: 0 <= i < |telescoping| && telescoping[i] < 2 then Rejected
    else
      var n := if |telescoping| == 0 then 1 else |telescoping|;
      var caps := seq(n, k requires 0 <= k < n =>
                        (if k == 0 then assembled else 0) + (if k < |telescoping| then telescoping[k] else 0));
      // The closing self-check of the constructor wants every capacity to be at least two.
      if caps[0] < 2 then Rejected else RoomyFrom(caps); Accepted(Config(caps, assembled, nrf, ntAlign / NT, fpgaPerSample))
  }

  predicate GoodConfig(cfg: Config) {
    && |cfg.caps| > 0 && Roomy(cfg.caps)
    && 0 < cfg.bufsize <= cfg.caps[0]
    && (|cfg.caps| > 1 ==> cfg.bufsize + 2 <= cfg.caps[0])
    && cfg.fpgaPerSample > 0
  }

  /** One arriving packet: the chunk its time stamp falls in, and whether it was assembled. */
  datatype Event = Event(ichunk: nat, hit: bool)

  datatype Fate = Delivered | Dropped

  /** What the assembler thread does once the push it has planned is committed. */
  datatype Next = ThenPacket(ichunk: nat) | ThenLast(finalFpga: nat) | ThenClose(finalFpga: nat)

  datatype Pc = Resting | Pushing(chunk: Chunk, plan: seq<LevelPlan>, next: Next) | Closing(finalFpga: nat)

  /**
    The ring itself: its levels and the position of the oldest level-0 entry.  The other fields are history:
    the index of the first chunk of the stream, the contents of all pushed chunks, and how many of them are gone.
  */
  datatype Ring = Ring(levels: seq<seq<Chunk>>, pos0: nat, first: nat, history: seq<seq<nat>>, evicted: nat)

  /** The downstream cursor; the number of dropped chunks; and, as history, what became of each position. */
  datatype Downstream = Downstream(down: nat, dropped: nat, maxRetrieved: nat, fates: seq<Fate>, delivered: seq<Chunk>)

  /** What the assembler thread owns; `log` is history. */
  datatype Assembly = Assembly(
    started: bool, active0: Option<Chunk>, active1: Option<Chunk>, pc: Pc, done: bool, finalFpga: nat,
    hits: nat, misses: nat, queued: nat, maxFlushed: nat, log: seq<Event>)

  datatype State = State(ring: Ring, ds: Downstream, asm: Assembly)

  function NoLevels(n: nat): (r: seq<seq<Chunk>>)
    ensures |r| == n && forall k :: 0 <= k < n ==> r[k] == []
  {
    if n == 0 then [] else [[]] + NoLevels(n - 1)
  }

  function Initial(cfg: Config): State {
    State(Ring(NoLevels(|cfg.caps|), 0, 0, [], 0), Downstream(0, 0, 0, [], []),
          Assembly(false, None, None, Resting, false, 0, 0, 0, 0, 0, []))
  }

  function FreshChunk(ichunk: nat): Chunk {
    Chunk(ichunk, 1, Raw([]), None)
  }

  /** The chunk of the first packet, rounded up to a multiple of the alignment. */
  function FirstChunk(cfg: Config, ichunk: nat): (r: nat)
    ensures ichunk <= r && (cfg.align > 0 ==> r < ichunk + cfg.align && r % cfg.align == 0)
    ensures cfg.align == 0 ==> r == ichunk
  {
    RoundedUp(ichunk, cfg.align);
    if cfg.align > 0 then ((ichunk + cfg.align - 1) / cfg.align) * cfg.align else ichunk
  }

  lemma RoundedUp(n: nat, k: nat)
    ensures k > 0 ==> n <= (n + k - 1) / k * k < n + k && ((n + k - 1) / k * k) % k == 0
  {
    if k > 0 {
      var q := (n + k - 1) / k;
      MultipleIsZero(k, q);
      assert n + k - 1 == k * q + (n + k - 1) % k;
    }
  }

  /** n chunks of k FPGA counts each. */
  function Counts(k: nat, n: nat): nat {
    if n == 0 then 0 else k + Counts(k, n - 1)
  }

  /** The FPGA count at which chunk n begins. */
  function FpgaAt(cfg: Config, n: nat): nat {
    Counts(NT * cfg.fpgaPerSample, n)
  }

  function FpgaEnd(cfg: Config, c: Chunk): nat {
    FpgaAt(cfg, c.ichunk + c.binning)
  }

  /** The product the program writes. */
  lemma {:induction false} FpgaIsProduct(cfg: Config, n: nat)
    ensures FpgaAt(cfg, n) == n * NT * cfg.fpgaPerSample
  {
    if n > 0 {
      FpgaIsProduct(cfg, n - 1);
      calc {
        n * NT * cfg.fpgaPerSample;
        n * (NT * cfg.fpgaPerSample);
        (n - 1) * (NT * cfg.fpgaPerSample) + NT * cfg.fpgaPerSample;
        (n - 1) * NT * cfg.fpgaPerSample + NT * cfg.fpgaPerSample;
      }
    }
  }

  lemma {:induction false} CountsGrow(k: nat, m: nat, n: nat)
    requires k > 0 && m < n
    ensures Counts(k, m) < Counts(k, n)
  {
    if m < n - 1 { CountsGrow(k, m, n - 1); }
  }

  // ------------------------------------------------------------------------------------------------
  // Steps of the assembler thread

  function Start(cfg: Config, s: State, ichunk: nat): State {
    if s.asm.started then s
    else
      var f := FirstChunk(cfg, ichunk);
      s.(ring := s.ring.(first := f),
         asm := s.asm.(started := true, active0 := Some(FreshChunk(f)), active1 := Some(FreshChunk(f + 1))))
  }

  function WithHit(c: Chunk, n: nat): Chunk {
    match c.content
    case Raw(h) => c.(content := Raw(h + [n]))
    case Downsampled(_, _) => c
  }

  /** Add the packet to the active chunk it falls in, or count a miss. */
  function Place(a: Assembly, ichunk: nat): Assembly
    requires a.active0.Some? && a.active1.Some?
  {
    var n := |a.log|;
    if ichunk == a.active0.value.ichunk then
      a.(active0 := Some(WithHit(a.active0.value, n)), hits := a.hits + 1, log := a.log + [Event(ichunk, true)])
    else if ichunk == a.active1.value.ichunk then
      a.(active1 := Some(WithHit(a.active1.value, n)), hits := a.hits + 1, log := a.log + [Event(ichunk, true)])
    else
      a.(misses := a.misses + 1, log := a.log + [Event(ichunk, false)])
  }

  predicate Plannable(cfg: Config, levels: seq<seq<Chunk>>) {
    && |levels| == |cfg.caps| > 0
    && Roomy(cfg.caps) && MasksShaped(levels, cfg.nrf)
  }

  /** Step 1 of a push.  The chunk has left the active window; if planning fails it is lost for good. */
  function Begin(cfg: Config, levels: seq<seq<Chunk>>, a: Assembly, c: Chunk, next: Next): Assembly
    requires Plannable(cfg, levels)
  {
    match MakePlan(levels, cfg.caps, 0, c, cfg.nrf)
    case Ready(plan) => a.(pc := Pushing(c, plan, next))
    case Failed(_) => a.(pc := Resting)
  }

  /** A packet arrives.  One far in the future advances the window by one chunk only. */
  function Arrive(cfg: Config, s: State, ichunk: nat): State
    requires Plannable(cfg, s.ring.levels)
  {
    var t := Start(cfg, s, ichunk);
    t.(asm := Receive(cfg, t.ring.levels, t.asm, ichunk))
  }

  function Receive(cfg: Config, levels: seq<seq<Chunk>>, a: Assembly, ichunk: nat): Assembly
    requires Plannable(cfg, levels)
  {
    if a.active0.None? || a.active1.None? then a
    else if ichunk >= a.active0.value.ichunk + 2 then
      Begin(cfg, levels, a.(active0 := None), a.active0.value, ThenPacket(ichunk))
    else Place(a, ichunk)
  }

  predicate Applicable(r: Ring, plan: seq<LevelPlan>) {
    r.levels != [] && Applies(r.levels, plan)
  }

  /** Step 2 of a push: all levels change at once. */
  function Store(cfg: Config, r: Ring, c: Chunk, plan: seq<LevelPlan>): Ring
    requires Applicable(r, plan) && c.content.Raw? && |r.levels| == |cfg.caps|
  {
    Ring(Apply(r.levels, plan), r.pos0 + plan[0].npop, r.first, r.history + [c.content.hits],
         r.evicted + Evicted(r.levels, cfg.caps, 0))
  }

  function Excess(cfg: Config, r: Ring, down: nat): nat
    requires r.levels != []
  {
    var allowed := r.pos0 + |r.levels[0]| - cfg.bufsize;
    if down < allowed then allowed - down else 0
  }

  /** Also under the lock: the downstream position moves up if it lags too far behind. */
  function Catchup(cfg: Config, r: Ring, d: Downstream): Downstream
    requires r.levels != []
  {
    var n := Excess(cfg, r, d.down);
    d.(down := d.down + n, dropped := d.dropped + n, fates := d.fates + seq(n, _ => Dropped))
  }

  predicate Committable(cfg: Config, s: State) {
    && s.asm.pc.Pushing? && Applicable(s.ring, s.asm.pc.plan) && s.asm.pc.chunk.content.Raw?
    && |s.ring.levels| == |cfg.caps|
    && (!s.asm.pc.next.ThenClose? ==> s.asm.active1.Some?)
  }

  function Commit(cfg: Config, s: State): State
    requires Committable(cfg, s)
    requires Plannable(cfg, Store(cfg, s.ring, s.asm.pc.chunk, s.asm.pc.plan).levels)
  {
    var ring := Store(cfg, s.ring, s.asm.pc.chunk, s.asm.pc.plan);
    State(ring, Catchup(cfg, ring, s.ds), Resume(cfg, ring.levels, s.asm))
  }

  /** The assembler thread carries on where the push interrupted it. */
  function Resume(cfg: Config, levels: seq<seq<Chunk>>, asm: Assembly): Assembly
    requires Plannable(cfg, levels) && asm.pc.Pushing? && (!asm.pc.next.ThenClose? ==> asm.active1.Some?)
  {
    var a := asm.(queued := asm.queued + 1, maxFlushed := FpgaEnd(cfg, asm.pc.chunk));
    match asm.pc.next
    case ThenPacket(ichunk) =>
      Place(Moved(a), ichunk)
    case ThenLast(fin) => Begin(cfg, levels, a.(active1 := None), a.active1.value, ThenClose(fin))
    case ThenClose(fin) => a.(pc := Closing(fin))
  }

  /** End of stream: push both active chunks, then raise the flag. */
  function End(cfg: Config, s: State): State
    requires Plannable(cfg, s.ring.levels)
  {
    var a := s.asm;
    if a.active0.None? || a.active1.None? then s
    else
      s.(asm := Begin(cfg, s.ring.levels, a.(active0 := None), a.active0.value,
                      ThenLast(FpgaAt(cfg, a.active0.value.ichunk + 2))))
  }

  function Close(s: State): State
    requires s.asm.pc.Closing?
  {
    s.(asm := s.asm.(done := true, finalFpga := s.asm.pc.finalFpga, pc := Resting))
  }

  // ------------------------------------------------------------------------------------------------
  // Steps of the other threads

  predicate HasReady(s: State) {
    s.ring.levels != [] && s.ring.pos0 <= s.ds.down < s.ring.pos0 + |s.ring.levels[0]|
  }

  /** The downstream thread takes the next chunk, if there is one. */
  function Get(cfg: Config, s: State): State {
    if HasReady(s) then
      var c := s.ring.levels[0][s.ds.down - s.ring.pos0];
      s.(ds := s.ds.(down := s.ds.down + 1, maxRetrieved := FpgaEnd(cfg, c), fates := s.ds.fates + [Delivered],
                     delivered := s.ds.delivered + [c]))
    else s
  }

  /** The RFI thread fills the mask of the k-th level-0 chunk, once. */
  function FillLevels(nrf: nat, levels: seq<seq<Chunk>>, k: nat, truth: nat -> Mask): seq<seq<Chunk>> {
    if nrf > 0 && levels != [] && k < |levels[0]| && levels[0][k].mask.None? then
      var c := levels[0][k];
      levels[0 := levels[0][k := c.(mask := Some(truth(c.ichunk)))]]
    else levels
  }

  function Fill(cfg: Config, s: State, k: nat, truth: nat -> Mask): State {
    s.(ring := s.ring.(levels := FillLevels(cfg.nrf, s.ring.levels, k, truth)))
  }

  // ------------------------------------------------------------------------------------------------
  // The invariant

  /** Arrival numbers of the packets assembled into one chunk, in order of arrival. */
  function HitsFor(log: seq<Event>, ichunk: nat): seq<nat> {
    if log == [] then []
    else
      var last := log[|log| - 1];
      HitsFor(log[..|log| - 1], ichunk) + if last.hit && last.ichunk == ichunk then [|log| - 1] else []
  }

  function CountHits(log: seq<Event>): (r: nat)
    ensures r <= |log|
  {
    if log == [] then 0 else CountHits(log[..|log| - 1]) + if log[|log| - 1].hit then 1 else 0
  }

  /** Positions at which the downstream thread took a chunk. */
  function Taken(fates: seq<Fate>): seq<nat> {
    if fates == [] then []
    else Taken(fates[..|fates| - 1]) + if fates[|fates| - 1] == Delivered then [|fates| - 1] else []
  }

  function CountDropped(fates: seq<Fate>): nat {
    if fates == [] then 0 else CountDropped(fates[..|fates| - 1]) + if fates[|fates| - 1] == Dropped then 1 else 0
  }

  /** The first chunk that has not been pushed yet. */
  function Head(r: Ring): nat { r.first + |r.history| }

  predicate LevelsInv(cfg: Config, r: Ring, truth: nat -> Mask) {
    && Shape(r.levels, cfg.caps, 0)
    && MasksMean(r.levels, 0, truth, cfg.nrf)
    && r.evicted <= |r.history|
    && Tiles(Span(r.levels), r.first + r.evicted, Head(r))
    && AllLeaves(Span(r.levels)) == r.history[r.evicted..]
    && (r.evicted > 0 ==> |r.levels[|r.levels| - 1]| == cfg.caps[|r.levels| - 1])
  }

  /** Level 0 holds the newest pushed chunks, at consecutive positions, unchanged but for their masks. */
  predicate LevelZeroInv(r: Ring) {
    && r.levels != []
    && r.pos0 + |r.levels[0]| == |r.history|
    && (forall k :: 0 <= k < |r.levels[0]| ==>
          && r.levels[0][k].ichunk == r.first + r.pos0 + k
          && r.levels[0][k].binning == 1
          && r.levels[0][k].content == Raw(r.history[r.pos0 + k]))
  }

  predicate CursorInv(cfg: Config, r: Ring, d: Downstream) {
    && r.levels != []
    && r.pos0 <= d.down <= r.pos0 + |r.levels[0]| <= d.down + cfg.bufsize
  }

  /** The i-th delivered chunk is the one pushed at the i-th taken position. */
  predicate DeliveredInv(r: Ring, d: Downstream) {
    && |d.fates| == d.down <= |r.history|
    && d.dropped == CountDropped(d.fates)
    && |d.delivered| == |Taken(d.fates)|
    && (forall i :: 0 <= i < |d.delivered| ==> Taken(d.fates)[i] < d.down)
    && (forall i :: 0 <= i < |d.delivered| ==>
          && d.delivered[i].ichunk == r.first + Taken(d.fates)[i]
          && d.delivered[i].binning == 1
          && d.delivered[i].content == Raw(r.history[Taken(d.fates)[i]]))
  }

  predicate RetrievedInv(cfg: Config, d: Downstream) {
    d.maxRetrieved == (if d.delivered == [] then 0 else FpgaEnd(cfg, d.delivered[|d.delivered| - 1]))
  }

  predicate LogInv(r: Ring, a: Assembly) {
    && (forall k :: 0 <= k < |r.history| ==> r.history[k] == HitsFor(a.log, r.first + k))
    && (forall n :: 0 <= n < |a.log| && a.log[n].hit ==> r.first <= a.log[n].ichunk < Head(r) + 2)
    && a.hits == CountHits(a.log)
    && a.hits + a.misses == |a.log|
  }

  predicate FlushInv(cfg: Config, r: Ring, a: Assembly) {
    && a.queued == |r.history|
    && a.maxFlushed == (if r.history == [] then 0 else FpgaAt(cfg, Head(r)))
  }

  predicate IsActive(a: Assembly, c: Chunk, ichunk: nat) {
    c == Chunk(ichunk, 1, Raw(HitsFor(a.log, ichunk)), None)
  }

  /** The window of two chunks under assembly, through all the stages of a push. */
  predicate WindowInv(cfg: Config, r: Ring, a: Assembly) {
    match a.pc
    case Resting =>
      && (a.active0.Some? ==> a.active1.Some? && IsActive(a, a.active0.value, Head(r)))
      && (a.active1.Some? ==> !a.done && a.started && IsActive(a, a.active1.value, Head(r) + 1))
      && (a.done ==> a.started && a.finalFpga == FpgaAt(cfg, Head(r)))
      && (!a.started ==> r.history == [] && a.log == [] && a.active0.None? && a.active1.None?)
    case Pushing(c, plan, next) =>
      && a.started && !a.done && a.active0.None?
      && IsActive(a, c, Head(r))
      && Plannable(cfg, r.levels)
      && MakePlan(r.levels, cfg.caps, 0, c, cfg.nrf) == Ready(plan)
      && NextInv(cfg, r, a, next)
    case Closing(fin) =>
      a.started && !a.done && a.active0.None? && a.active1.None? && fin == FpgaAt(cfg, Head(r))
  }

  predicate NextInv(cfg: Config, r: Ring, a: Assembly, next: Next) {
    match next
    case ThenPacket(p) => a.active1.Some? && IsActive(a, a.active1.value, Head(r) + 1)
    case ThenLast(fin) =>
      a.active1.Some? && IsActive(a, a.active1.value, Head(r) + 1) && fin == FpgaAt(cfg, Head(r) + 2)
    case ThenClose(fin) => a.active1.None? && fin == FpgaAt(cfg, Head(r) + 1)
  }

  predicate RingInv(cfg: Config, r: Ring, truth: nat -> Mask) {
    GoodConfig(cfg) && LevelsInv(cfg, r, truth) && LevelZeroInv(r)
  }

  /** A chunk is dropped only when more than `bufsize` younger ones have been pushed. */
  predicate DropsInv(cfg: Config, r: Ring, d: Downstream) {
    forall p :: 0 <= p < |d.fates| && d.fates[p] == Dropped ==> p + cfg.bufsize < |r.history|
  }

  predicate DownstreamInv(cfg: Config, r: Ring, d: Downstream) {
    CursorInv(cfg, r, d) && DeliveredInv(r, d) && RetrievedInv(cfg, d) && DropsInv(cfg, r, d)
  }

  predicate AssemblyInv(cfg: Config, r: Ring, a: Assembly) {
    LogInv(r, a) && FlushInv(cfg, r, a) && WindowInv(cfg, r, a)
  }

  predicate Inv(cfg: Config, s: State, truth: nat -> Mask) {
    RingInv(cfg, s.ring, truth) && DownstreamInv(cfg, s.ring, s.ds) && AssemblyInv(cfg, s.ring, s.asm)
  }

  /** Whatever masks the RFI thread produces, they have the configured shape. */
  ghost predicate TruthShaped(truth: nat -> Mask, nrf: nat) {
    forall i: nat :: MaskShape(truth(i), nrf)
  }

  lemma PlannableInv(cfg: Config, r: Ring, truth: nat -> Mask)
    requires RingInv(cfg, r, truth)
    ensures Plannable(cfg, r.levels)
  {
    ShapeAll(r.levels, cfg.caps, 0);
    MeaningGivesShape(r.levels, 0, truth, cfg.nrf);
  }

  lemma {:induction false} NoLevelsInv(caps: seq<nat>, ids: nat, truth: nat -> Mask, nrf: nat)
    requires |caps| > 0 && Roomy(caps)
    ensures Shape(NoLevels(|caps|), caps, ids)
    ensures Span(NoLevels(|caps|)) == []
    ensures MasksMean(NoLevels(|caps|), ids, truth, nrf)
    decreases |caps|
  {
    assert NoLevels(|caps|)[1..] == NoLevels(|caps| - 1);
    if |caps| > 1 { NoLevelsInv(caps[1..], ids + 1, truth, nrf); }
  }

  lemma InitialInv(cfg: Config, truth: nat -> Mask)
    requires GoodConfig(cfg)
    ensures Inv(cfg, Initial(cfg), truth)
  {
    NoLevelsInv(cfg.caps, 0, truth, cfg.nrf);
  }

  // ------------------------------------------------------------------------------------------------
  // Packets keep it

  lemma LogGrows(log: seq<Event>, e: Event, ichunk: nat)
    ensures e.hit && e.ichunk == ichunk ==> HitsFor(log + [e], ichunk) == HitsFor(log, ichunk) + [|log|]
    ensures !(e.hit && e.ichunk == ichunk) ==> HitsFor(log + [e], ichunk) == HitsFor(log, ichunk)
    ensures CountHits(log + [e]) == CountHits(log) + if e.hit then 1 else 0
  {
    assert (log + [e])[..|log|] == log;
  }

  lemma {:induction false} NoHitsBeyond(log: seq<Event>, ichunk: nat)
    requires forall n :: 0 <= n < |log| && log[n].hit ==> log[n].ichunk < ichunk
    ensures HitsFor(log, ichunk) == []
  {
    if log != [] { NoHitsBeyond(log[..|log| - 1], ichunk); }
  }

  lemma LogKeeps(r: Ring, a: Assembly, b: Assembly, e: Event)
    requires LogInv(r, a) && b.log == a.log + [e] && (e.hit ==> Head(r) <= e.ichunk < Head(r) + 2)
    requires b.hits == a.hits + (if e.hit then 1 else 0) && b.misses == a.misses + (if e.hit then 0 else 1)
    ensures LogInv(r, b)
  {
    forall k | 0 <= k < |r.history| ensures r.history[k] == HitsFor(b.log, r.first + k) {
      LogGrows(a.log, e, r.first + k);
    }
    LogGrows(a.log, e, 0);
  }

  /** Assembling a packet, or missing it, keeps the account of all packets. */
  lemma PlaceKeeps(cfg: Config, r: Ring, a: Assembly, ichunk: nat)
    requires LogInv(r, a) && FlushInv(cfg, r, a) && a.pc.Resting? && a.started && !a.done
    requires a.active0.Some? && IsActive(a, a.active0.value, Head(r))
    requires a.active1.Some? && IsActive(a, a.active1.value, Head(r) + 1)
    ensures AssemblyInv(cfg, r, Place(a, ichunk))
  {
    var e := Event(ichunk, ichunk == Head(r) || ichunk == Head(r) + 1);
    LogGrows(a.log, e, Head(r));
    LogGrows(a.log, e, Head(r) + 1);
    LogKeeps(r, a, Place(a, ichunk), e);
  }

  lemma StartKeeps(cfg: Config, s: State, ichunk: nat, truth: nat -> Mask)
    requires Inv(cfg, s, truth) && s.asm.pc.Resting?
    ensures Inv(cfg, Start(cfg, s, ichunk), truth)
    ensures Start(cfg, s, ichunk).asm.started
  {
    if !s.asm.started {
      EmptySpan(s.ring.levels, s.ring.first + s.ring.evicted, Head(s.ring));
    }
  }

  /** Nothing pushed, nothing held. */
  lemma EmptySpan(levels: seq<seq<Chunk>>, lo: nat, hi: nat)
    requires Tiles(Span(levels), lo, hi) && lo == hi
    ensures Span(levels) == []
  {
    if Span(levels) != [] {
      TilesOrder(Span(levels)[1..], lo + Span(levels)[0].binning, hi);
    }
  }

  lemma BeginKeeps(cfg: Config, r: Ring, a: Assembly, c: Chunk, next: Next, truth: nat -> Mask)
    requires RingInv(cfg, r, truth) && LogInv(r, a) && FlushInv(cfg, r, a)
    requires a.started && !a.done && a.active0.None?
    requires IsActive(a, c, Head(r)) && NextInv(cfg, r, a, next)
    ensures Plannable(cfg, r.levels)
    ensures AssemblyInv(cfg, r, Begin(cfg, r.levels, a, c, next))
  {
    PlannableInv(cfg, r, truth);
  }

  lemma ArriveKeeps(cfg: Config, s: State, ichunk: nat, truth: nat -> Mask)
    requires Inv(cfg, s, truth) && s.asm.pc.Resting?
    ensures Plannable(cfg, s.ring.levels)
    ensures Inv(cfg, Arrive(cfg, s, ichunk), truth)
  {
    PlannableInv(cfg, s.ring, truth);
    StartKeeps(cfg, s, ichunk, truth);
    var t := Start(cfg, s, ichunk);
    PlannableInv(cfg, t.ring, truth);
    ArriveStarted(cfg, t.ring, t.asm, ichunk, truth);
  }

  lemma ArriveStarted(cfg: Config, r: Ring, a: Assembly, ichunk: nat, truth: nat -> Mask)
    requires RingInv(cfg, r, truth) && AssemblyInv(cfg, r, a) && a.pc.Resting? && a.started
    requires Plannable(cfg, r.levels)
    ensures AssemblyInv(cfg, r, Receive(cfg, r.levels, a, ichunk))
  {
    if a.active0.Some? && a.active1.Some? {
      if ichunk >= a.active0.value.ichunk + 2 {
        BeginKeeps(cfg, r, a.(active0 := None), a.active0.value, ThenPacket(ichunk), truth);
      } else {
        PlaceKeeps(cfg, r, a, ichunk);
      }
    }
  }

  lemma EndKeeps(cfg: Config, s: State, truth: nat -> Mask)
    requires Inv(cfg, s, truth) && s.asm.pc.Resting?
    ensures Plannable(cfg, s.ring.levels)
    ensures Inv(cfg, End(cfg, s), truth)
  {
    PlannableInv(cfg, s.ring, truth);
    hide LevelsInv, LevelZeroInv, CursorInv, DeliveredInv, RetrievedInv, Begin, HitsFor, FpgaAt, Plannable;
    var a := s.asm;
    if a.active0.Some? && a.active1.Some? {
      BeginKeeps(cfg, s.ring, a.(active0 := None), a.active0.value,
                 ThenLast(FpgaAt(cfg, a.active0.value.ichunk + 2)), truth);
    }
  }

  lemma CloseKeeps(cfg: Config, s: State, truth: nat -> Mask)
    requires Inv(cfg, s, truth) && s.asm.pc.Closing?
    ensures Inv(cfg, Close(s), truth)
  {
  }

  // ------------------------------------------------------------------------------------------------
  // The downstream thread keeps it

  lemma FatesGrow(fates: seq<Fate>, f: Fate)
    ensures Taken(fates + [f]) == Taken(fates) + if f == Delivered then [|fates|] else []
    ensures CountDropped(fates + [f]) == CountDropped(fates) + if f == Dropped then 1 else 0
  {
    assert (fates + [f])[..|fates|] == fates;
  }

  lemma {:induction false} FatesDrop(fates: seq<Fate>, n: nat)
    ensures Taken(fates + seq(n, _ => Dropped)) == Taken(fates)
    ensures CountDropped(fates + seq(n, _ => Dropped)) == CountDropped(fates) + n
  {
    if n == 0 {
      assert fates + seq(n, _ => Dropped) == fates;
    } else {
      FatesDrop(fates, n - 1);
      assert fates + seq(n, _ => Dropped) == (fates + seq(n - 1, _ => Dropped)) + [Dropped];
      FatesGrow(fates + seq(n - 1, _ => Dropped), Dropped);
    }
  }

  lemma GetKeeps(cfg: Config, s: State, truth: nat -> Mask)
    requires Inv(cfg, s, truth)
    ensures Inv(cfg, Get(cfg, s), truth)
  {
    if HasReady(s) {
      TakeKeeps(cfg, s.ring, s.ds, s.ring.levels[0][s.ds.down - s.ring.pos0]);
    }
  }

  lemma TakeKeeps(cfg: Config, r: Ring, d: Downstream, c: Chunk)
    requires LevelZeroInv(r) && DownstreamInv(cfg, r, d)
    requires r.pos0 <= d.down < r.pos0 + |r.levels[0]| && c == r.levels[0][d.down - r.pos0]
    ensures DownstreamInv(cfg, r, d.(down := d.down + 1, maxRetrieved := FpgaEnd(cfg, c),
                                     fates := d.fates + [Delivered], delivered := d.delivered + [c]))
  {
    FatesGrow(d.fates, Delivered);
  }

  // ------------------------------------------------------------------------------------------------
  // Committing a push keeps it

  predicate PushingInto(cfg: Config, r: Ring, c: Chunk, plan: seq<LevelPlan>) {
    && Plannable(cfg, r.levels)
    && c.content.Raw? && c == Chunk(Head(r), 1, c.content, None)
    && MakePlan(r.levels, cfg.caps, 0, c, cfg.nrf) == Ready(plan)
  }

  lemma StoreKeeps(cfg: Config, r: Ring, c: Chunk, plan: seq<LevelPlan>, truth: nat -> Mask)
    requires RingInv(cfg, r, truth) && PushingInto(cfg, r, c, plan)
    ensures Applicable(r, plan)
    ensures RingInv(cfg, Store(cfg, r, c, plan), truth)
    ensures Head(Store(cfg, r, c, plan)) == Head(r) + 1
  {
    StoreTiles(cfg, r, c, plan);
    StoreMeans(cfg, r, c, plan, truth);
    StoreConserves(cfg, r, c, plan, truth);
    StoreBottom(cfg, r, c, plan, truth);
    LevelZeroGrows(cfg, r, c, plan);
  }

  lemma StoreTiles(cfg: Config, r: Ring, c: Chunk, plan: seq<LevelPlan>)
    requires Shape(r.levels, cfg.caps, 0) && r.evicted <= |r.history|
    requires Tiles(Span(r.levels), r.first + r.evicted, Head(r))
    requires PushingInto(cfg, r, c, plan)
    ensures Applicable(r, plan)
    ensures var t := Store(cfg, r, c, plan);
            && Shape(t.levels, cfg.caps, 0)
            && t.evicted <= |t.history|
            && Tiles(Span(t.levels), t.first + t.evicted, Head(t))
  {
    var lo, hi := r.first + r.evicted, Head(r);
    PushKeepsTiling(r.levels, cfg.caps, 0, c, cfg.nrf, lo, hi);
    var t := Store(cfg, r, c, plan);
    TilesOrder(Span(t.levels), lo + Evicted(r.levels, cfg.caps, 0), hi + Pow2(0));
  }

  lemma StoreMeans(cfg: Config, r: Ring, c: Chunk, plan: seq<LevelPlan>, truth: nat -> Mask)
    requires RingInv(cfg, r, truth) && PushingInto(cfg, r, c, plan)
    ensures Applicable(r, plan)
    ensures MasksMean(Store(cfg, r, c, plan).levels, 0, truth, cfg.nrf)
  {
    assert Means(c, truth, cfg.nrf);
    PushKeepsMaskMeaning(r.levels, cfg.caps, 0, c, cfg.nrf, truth, r.first + r.evicted, Head(r));
  }

  lemma StoreBottom(cfg: Config, r: Ring, c: Chunk, plan: seq<LevelPlan>, truth: nat -> Mask)
    requires RingInv(cfg, r, truth) && PushingInto(cfg, r, c, plan)
    ensures Applicable(r, plan)
    ensures var t := Store(cfg, r, c, plan);
            t.evicted > 0 ==> |t.levels[|t.levels| - 1]| == cfg.caps[|t.levels| - 1]
  {
    var n := |r.levels| - 1;
    ShapeAll(r.levels, cfg.caps, 0);
    if r.evicted > 0 || AllFull(r.levels, cfg.caps) {
      if r.evicted == 0 { AllFullAt(r.levels, cfg.caps, n); }
      BottomStaysFull(r.levels, cfg.caps, 0, c, cfg.nrf, r.first + r.evicted, Head(r));
    }
  }

  lemma LostWeight(cfg: Config, r: Ring, truth: nat -> Mask)
    requires RingInv(cfg, r, truth)
    ensures |Lost(r.levels, cfg.caps)| == Evicted(r.levels, cfg.caps, 0)
  {
    if AllFull(r.levels, cfg.caps) {
      var n := |r.levels| - 1;
      ShapeBinning(r.levels, cfg.caps, 0, n);
      AllFullAt(r.levels, cfg.caps, n);
      RoomyAll(cfg.caps);
      MasksMeanAt(r.levels, 0, truth, cfg.nrf, n);
      assert Means(r.levels[n][0], truth, cfg.nrf);
    }
  }

  lemma SuffixAfterLoss<T>(history: seq<T>, from: nat, extra: seq<T>, lost: seq<T>, kept: seq<T>)
    requires from <= |history| && history[from..] + extra == lost + kept
    ensures from + |lost| <= |history + extra| && kept == (history + extra)[from + |lost|..]
  {
    assert (history + extra)[from..] == lost + kept;
    assert kept == (lost + kept)[|lost|..];
  }

  lemma StoreConserves(cfg: Config, r: Ring, c: Chunk, plan: seq<LevelPlan>, truth: nat -> Mask)
    requires RingInv(cfg, r, truth) && PushingInto(cfg, r, c, plan)
    ensures Applicable(r, plan)
    ensures var t := Store(cfg, r, c, plan);
            t.evicted <= |t.history| && AllLeaves(Span(t.levels)) == t.history[t.evicted..]
  {
    PushConserves(r.levels, cfg.caps, 0, c, cfg.nrf, r.first + r.evicted, Head(r));
    LostWeight(cfg, r, truth);
    SuffixAfterLoss(r.history, r.evicted, [c.content.hits], Lost(r.levels, cfg.caps),
                    AllLeaves(Span(Apply(r.levels, plan))));
  }

  lemma {:induction false} ShapeBinning(levels: seq<seq<Chunk>>, caps: seq<nat>, ids: nat, k: nat)
    requires Shape(levels, caps, ids) && k < |levels|
    ensures forall i :: 0 <= i < |levels[k]| ==> levels[k][i].binning == Pow2(ids + k)
    decreases k
  {
    if k > 0 { ShapeBinning(levels[1..], caps[1..], ids + 1, k - 1); }
  }

  lemma LevelZeroGrows(cfg: Config, r: Ring, c: Chunk, plan: seq<LevelPlan>)
    requires LevelZeroInv(r) && PushingInto(cfg, r, c, plan)
    ensures LevelZeroInv(Store(cfg, r, c, plan))
  {
    var t := Store(cfg, r, c, plan);
    var n := plan[0].npop;
    assert t.levels[0] == r.levels[0][n..] + [c];
    forall k | 0 <= k < |t.levels[0]|
      ensures t.levels[0][k].ichunk == t.first + t.pos0 + k && t.levels[0][k].binning == 1
              && t.levels[0][k].content == Raw(t.history[t.pos0 + k])
    {
      if k < |r.levels[0]| - n { assert t.levels[0][k] == r.levels[0][k + n]; }
    }
  }

  /**
    The downstream cursor never points below the oldest level-0 entry, although a push can remove two entries at
    once: whatever is removed has been delivered, or is counted as dropped by this very push.
  */
  lemma CatchupKeeps(cfg: Config, r: Ring, c: Chunk, plan: seq<LevelPlan>, d: Downstream, truth: nat -> Mask)
    requires RingInv(cfg, r, truth) && DownstreamInv(cfg, r, d) && PushingInto(cfg, r, c, plan)
    ensures Applicable(r, plan)
    ensures var t := Store(cfg, r, c, plan); t.levels != [] && DownstreamInv(cfg, t, Catchup(cfg, t, d))
  {
    var t := Store(cfg, r, c, plan);
    assert t.levels[0] == r.levels[0][plan[0].npop..] + [c];
    assert |r.levels[0]| <= cfg.caps[0];
    FatesDrop(d.fates, Excess(cfg, t, d.down));
  }

  predicate Extends(r: Ring, t: Ring, hits: seq<nat>) {
    t.first == r.first && t.history == r.history + [hits]
  }

  lemma LogExtends(cfg: Config, r: Ring, t: Ring, a: Assembly, c: Chunk)
    requires LogInv(r, a) && FlushInv(cfg, r, a) && IsActive(a, c, Head(r)) && Extends(r, t, c.content.hits)
    ensures var b := a.(queued := a.queued + 1, maxFlushed := FpgaEnd(cfg, c));
            LogInv(t, b) && FlushInv(cfg, t, b)
  {
  }

  lemma ResumeKeeps(cfg: Config, r: Ring, t: Ring, a: Assembly, truth: nat -> Mask)
    requires AssemblyInv(cfg, r, a) && a.pc.Pushing?
    requires RingInv(cfg, t, truth) && Plannable(cfg, t.levels)
    requires Extends(r, t, a.pc.chunk.content.hits)
    ensures AssemblyInv(cfg, t, Resume(cfg, t.levels, a))
  {
    var b := a.(queued := a.queued + 1, maxFlushed := FpgaEnd(cfg, a.pc.chunk));
    LogExtends(cfg, r, t, a, a.pc.chunk);
    assert NextInv(cfg, r, a, a.pc.next);
    if a.pc.next.ThenPacket? {
      ResumePacket(cfg, t, b, a.pc.next.ichunk);
    } else if a.pc.next.ThenLast? {
      ResumeLast(cfg, t, b, a.pc.next.finalFpga, truth);
    } else {
      assert WindowInv(cfg, t, b.(pc := Closing(a.pc.next.finalFpga)));
    }
  }

  lemma ResumeLast(cfg: Config, t: Ring, b: Assembly, fin: nat, truth: nat -> Mask)
    requires RingInv(cfg, t, truth) && LogInv(t, b) && FlushInv(cfg, t, b)
    requires b.started && !b.done && b.active0.None?
    requires b.active1.Some? && IsActive(b, b.active1.value, Head(t)) && fin == FpgaAt(cfg, Head(t) + 1)
    ensures Plannable(cfg, t.levels)
    ensures AssemblyInv(cfg, t, Begin(cfg, t.levels, b.(active1 := None), b.active1.value, ThenClose(fin)))
  {
    BeginKeeps(cfg, t, b.(active1 := None), b.active1.value, ThenClose(fin), truth);
  }

  lemma ResumePacket(cfg: Config, t: Ring, b: Assembly, p: nat)
    requires LogInv(t, b) && FlushInv(cfg, t, b) && b.started && !b.done
    requires b.active1.Some? && IsActive(b, b.active1.value, Head(t))
    requires forall n :: 0 <= n < |b.log| && b.log[n].hit ==> b.log[n].ichunk < Head(t) + 1
    ensures AssemblyInv(cfg, t, Place(Moved(b), p))
  {
    NoHitsBeyond(b.log, Head(t) + 1);
    PlaceKeeps(cfg, t, Moved(b), p);
  }

  /** The window moves on by one chunk. */
  function Moved(a: Assembly): Assembly
    requires a.active1.Some?
  {
    a.(active0 := a.active1, active1 := Some(FreshChunk(a.active1.value.ichunk + 1)), pc := Resting)
  }

  lemma CommitKeeps(cfg: Config, s: State, truth: nat -> Mask)
    requires Inv(cfg, s, truth) && s.asm.pc.Pushing?
    ensures Committable(cfg, s)
    ensures Plannable(cfg, Store(cfg, s.ring, s.asm.pc.chunk, s.asm.pc.plan).levels)
    ensures Inv(cfg, Commit(cfg, s), truth)
  {
    var c, plan := s.asm.pc.chunk, s.asm.pc.plan;
    assert PushingInto(cfg, s.ring, c, plan);
    StoreKeeps(cfg, s.ring, c, plan, truth);
    CatchupKeeps(cfg, s.ring, c, plan, s.ds, truth);
    var t := Store(cfg, s.ring, c, plan);
    PlannableInv(cfg, t, truth);
    ResumeKeeps(cfg, s.ring, t, s.asm, truth);
  }

  // ------------------------------------------------------------------------------------------------
  // Filling a mask keeps it, even between the two halves of a push

  predicate SameButMasks(a: seq<Chunk>, b: seq<Chunk>) {
    |a| == |b| && forall i :: 0 <= i < |a| ==>
                                a[i].ichunk == b[i].ichunk && a[i].binning == b[i].binning && a[i].content == b[i].content
  }

  lemma {:induction false} TilesIgnoresMasks(a: seq<Chunk>, b: seq<Chunk>, lo: nat, hi: nat)
    requires SameButMasks(a, b) && Tiles(a, lo, hi)
    ensures Tiles(b, lo, hi)
    ensures AllLeaves(a) == AllLeaves(b)
  {
    if a != [] { TilesIgnoresMasks(a[1..], b[1..], lo + a[0].binning, hi); }
  }

  lemma FillKeepsRing(cfg: Config, r: Ring, k: nat, truth: nat -> Mask)
    requires RingInv(cfg, r, truth) && TruthShaped(truth, cfg.nrf)
    ensures RingInv(cfg, r.(levels := FillLevels(cfg.nrf, r.levels, k, truth)), truth)
    ensures |FillLevels(cfg.nrf, r.levels, k, truth)[0]| == |r.levels[0]|
  {
    var after := FillLevels(cfg.nrf, r.levels, k, truth);
    if after != r.levels {
      var top := after[0];
      assert after == [top] + r.levels[1..] && r.levels == [r.levels[0]] + r.levels[1..];
      SpanCons(top, r.levels[1..]);
      SpanCons(r.levels[0], r.levels[1..]);
      assert SameButMasks(Span(r.levels), Span(after));
      TilesIgnoresMasks(Span(r.levels), Span(after), r.first + r.evicted, Head(r));
      assert after[1..] == r.levels[1..];
      FilledMeans(r, k, truth, cfg.nrf);
    }
  }

  lemma FilledMeans(r: Ring, k: nat, truth: nat -> Mask, nrf: nat)
    requires MasksMean(r.levels, 0, truth, nrf) && LevelZeroInv(r) && TruthShaped(truth, nrf)
    ensures MasksMean(FillLevels(nrf, r.levels, k, truth), 0, truth, nrf)
  {
    var after := FillLevels(nrf, r.levels, k, truth);
    if after != r.levels {
      RawMaskMeans(after[0][k], truth, nrf);
      assert Means(r.levels[0][k], truth, nrf);
      assert LevelMeans(after[0], 0, truth, nrf);
      assert after[1..] == r.levels[1..];
    }
  }

  /** A plan made without the lock is still the right plan when it is committed. */
  lemma PlanSurvivesFill(cfg: Config, levels: seq<seq<Chunk>>, k: nat, c: Chunk, plan: seq<LevelPlan>,
                         truth: nat -> Mask)
    requires Plannable(cfg, levels) && TruthShaped(truth, cfg.nrf)
    requires MakePlan(levels, cfg.caps, 0, c, cfg.nrf) == Ready(plan)
    requires |levels[0]| <= cfg.caps[0]
    ensures Plannable(cfg, FillLevels(cfg.nrf, levels, k, truth))
    ensures MakePlan(FillLevels(cfg.nrf, levels, k, truth), cfg.caps, 0, c, cfg.nrf) == Ready(plan)
  {
    var after: seq<seq<Chunk>> := FillLevels(cfg.nrf, levels, k, truth);
    if after != levels {
      assert LevelShaped(after[0], cfg.nrf);
      assert after[1..] == levels[1..];
    }
  }

  lemma FillKeepsWindow(cfg: Config, r: Ring, a: Assembly, k: nat, truth: nat -> Mask)
    requires RingInv(cfg, r, truth) && TruthShaped(truth, cfg.nrf) && WindowInv(cfg, r, a)
    ensures WindowInv(cfg, r.(levels := FillLevels(cfg.nrf, r.levels, k, truth)), a)
  {
    var t := r.(levels := FillLevels(cfg.nrf, r.levels, k, truth));
    if a.pc.Pushing? {
      PlanSurvivesFill(cfg, r.levels, k, a.pc.chunk, a.pc.plan, truth);
      assert NextInv(cfg, t, a, a.pc.next);
    }
  }

  lemma FillKeepsOthers(cfg: Config, r: Ring, d: Downstream, a: Assembly, levels: seq<seq<Chunk>>)
    requires DownstreamInv(cfg, r, d) && LogInv(r, a) && FlushInv(cfg, r, a)
    requires levels != [] && |levels[0]| == |r.levels[0]|
    ensures DownstreamInv(cfg, r.(levels := levels), d)
    ensures LogInv(r.(levels := levels), a) && FlushInv(cfg, r.(levels := levels), a)
  {
  }

  lemma FillKeeps(cfg: Config, s: State, k: nat, truth: nat -> Mask)
    requires Inv(cfg, s, truth) && TruthShaped(truth, cfg.nrf)
    ensures Inv(cfg, Fill(cfg, s, k, truth), truth)
  {
    FillKeepsRing(cfg, s.ring, k, truth);
    FillKeepsWindow(cfg, s.ring, s.asm, k, truth);
    FillKeepsOthers(cfg, s.ring, s.ds, s.asm, FillLevels(cfg.nrf, s.ring.levels, k, truth));
  }

  // ------------------------------------------------------------------------------------------------
  // Runs

  datatype Step = StepArrive(ichunk: nat) | StepCommit | StepEnd | StepClose | StepGet | StepFill(k: nat)

  /** The assembler thread does one thing at a time; the other threads may step whenever they like. */
  predicate Enabled(s: State, step: Step) {
    match step
    case StepArrive(_) => s.asm.pc.Resting?
    case StepEnd => s.asm.pc.Resting?
    case StepCommit => s.asm.pc.Pushing?
    case StepClose => s.asm.pc.Closing?
    case StepGet => true
    case StepFill(_) => true
  }

  /** What a step relies on: level sizes and mask shapes that fit the configuration, and a plan that fits the levels. */
  predicate Defined(cfg: Config, s: State, step: Step) {
    match step
    case StepArrive(_) => Plannable(cfg, s.ring.levels)
    case StepEnd => Plannable(cfg, s.ring.levels)
    case StepCommit =>
      Committable(cfg, s) && Plannable(cfg, Store(cfg, s.ring, s.asm.pc.chunk, s.asm.pc.plan).levels)
    case StepClose => s.asm.pc.Closing?
    case StepGet => true
    case StepFill(_) => true
  }

  /** One step of any thread; a step that cannot be taken leaves the state alone. */
  function Take(cfg: Config, s: State, step: Step, truth: nat -> Mask): State {
    if !Enabled(s, step) || !Defined(cfg, s, step) then s
    else
      match step
      case StepArrive(ichunk) => Arrive(cfg, s, ichunk)
      case StepCommit => Commit(cfg, s)
      case StepEnd => End(cfg, s)
      case StepClose => Close(s)
      case StepGet => Get(cfg, s)
      case StepFill(k) => Fill(cfg, s, k, truth)
  }

  function Run(cfg: Config, s: State, steps: seq<Step>, truth: nat -> Mask): State
    decreases |steps|
  {
    if steps == [] then s else Run(cfg, Take(cfg, s, steps[0], truth), steps[1..], truth)
  }

  /** Every step keeps the invariant, and an enabled step is never stuck for want of what it relies on. */
  lemma StepKeeps(cfg: Config, s: State, step: Step, truth: nat -> Mask)
    requires Inv(cfg, s, truth) && TruthShaped(truth, cfg.nrf)
    ensures Enabled(s, step) ==> Defined(cfg, s, step)
    ensures Inv(cfg, Take(cfg, s, step, truth), truth)
  {
    hide Inv, Arrive, Commit, End, Close, Get, Fill, Store, Plannable, Committable;
    if Enabled(s, step) {
      match step
      case StepArrive(ichunk) => ArriveKeeps(cfg, s, ichunk, truth);
      case StepCommit => CommitKeeps(cfg, s, truth);
      case StepEnd => EndKeeps(cfg, s, truth);
      case StepClose => CloseKeeps(cfg, s, truth);
      case StepGet => GetKeeps(cfg, s, truth);
      case StepFill(k) => FillKeeps(cfg, s, k, truth);
    }
  }

  lemma {:induction false} RunKeeps(cfg: Config, s: State, steps: seq<Step>, truth: nat -> Mask)
    requires Inv(cfg, s, truth) && TruthShaped(truth, cfg.nrf)
    ensures Inv(cfg, Run(cfg, s, steps, truth), truth)
    decreases |steps|
  {
    if steps != [] {
      StepKeeps(cfg, s, steps[0], truth);
      RunKeeps(cfg, Take(cfg, s, steps[0], truth), steps[1..], truth);
    }
  }
}
