/**
  The chain of input and output positions that parallel block workers pass along: 33 reused slots, each a pointer
  and a lock, and a counter under its own lock.  An iteration takes its input position from the slot the previous
  iteration filled, fills the next slot, and does the same for its output position.  The model interleaves any
  number of threads at the granularity of single lock operations and single memory accesses.
*/
module IoChain {
  import opened Options

  type byte = bv8

  const IOC_SIZE: nat := 33

  /**
    What the workers compute: `advance(i, p)` is where iteration i's successor reads if iteration i reads at p, and
    `block(i, p)` is what it writes.
  */
  datatype Job = Job(in0: nat, out0: nat, total: nat, advance: (nat, nat) -> nat, block: (nat, nat) -> seq<byte>)

  /** One iteration: how far it has come, and the two positions it has read. */
  datatype Iter = Iter(pc: nat, src: nat, dst: nat)

  /** Lock owners are iterations.  The number of claimed iterations, |iters|, is the counter of the chain. */
  datatype Chain = Chain(
    iters: seq<Iter>, nextLock: Option<nat>,
    inLock: seq<Option<nat>>, inPtr: seq<nat>,
    outLock: seq<Option<nat>>, outPtr: seq<nat>,
    mem: nat -> byte)

  function Slot(i: nat): (r: nat)
    ensures r < IOC_SIZE
  {
    i % IOC_SIZE
  }

  function Initial(job: Job, mem: nat -> byte): Chain {
    Chain([], None, seq(IOC_SIZE, _ => None), seq(IOC_SIZE, _ => 0)[0 := job.in0],
          seq(IOC_SIZE, _ => None), seq(IOC_SIZE, _ => 0)[0 := job.out0], mem)
  }

  // ------------------------------------------------------------------------------------------------
  // The steps of one iteration

  // An iteration's program counter names the last thing it did.
  const CLAIMED := 1          // took the counter lock, then the next number
  const LOCKED_IN := 2        // locked in[i]
  const LOCKED_NEXT_IN := 3   // locked in[i+1]
  const LOCKED_NEXT_OUT := 4  // locked out[i+1]
  const ENTERED := 5          // released the counter lock
  const GOT_IN := 6           // read its input position
  const SET_NEXT_IN := 7      // wrote in[i+1]
  const FREED_NEXT_IN := 8    // unlocked in[i+1]
  const LOCKED_OUT := 9       // locked out[i]
  const GOT_OUT := 10         // read its output position
  const FREED_OUT := 11       // unlocked out[i]
  const SET_NEXT_OUT := 12    // wrote out[i+1]
  const FREED_NEXT_OUT := 13  // unlocked out[i+1]
  const FREED_IN := 14        // unlocked in[i]
  const DONE := 15            // wrote its block

  function Pc(s: Chain, i: nat): nat {
    if i < |s.iters| then s.iters[i].pc else 0
  }

  predicate Shaped(s: Chain) {
    |s.inLock| == |s.inPtr| == |s.outLock| == |s.outPtr| == IOC_SIZE
  }

  /** Acquiring a lock waits until it is free; everything else can always be done. */
  predicate CanStep(job: Job, s: Chain, i: nat)
    requires Shaped(s)
  {
    if i == |s.iters| then i < job.total && s.nextLock == None
    else
      && i < |s.iters|
      && s.iters[i].pc < DONE
      && (s.iters[i].pc == CLAIMED ==> s.inLock[Slot(i)] == None)
      && (s.iters[i].pc == LOCKED_IN ==> s.inLock[Slot(i + 1)] == None)
      && (s.iters[i].pc == LOCKED_NEXT_IN ==> s.outLock[Slot(i + 1)] == None)
      && (s.iters[i].pc == FREED_NEXT_IN ==> s.outLock[Slot(i)] == None)
  }

  function Write(mem: nat -> byte, at: nat, bytes: seq<byte>): nat -> byte {
    (a: nat) => if at <= a < at + |bytes| then bytes[a - at] else mem(a)
  }

  function Bump(s: Chain, i: nat): Chain
    requires i < |s.iters|
  {
    s.(iters := s.iters[i := s.iters[i].(pc := s.iters[i].pc + 1)])
  }

  /** The next step of iteration i. */
  function Step(job: Job, s: Chain, i: nat): Chain
    requires Shaped(s) && CanStep(job, s, i)
  {
    if i == |s.iters| then s.(iters := s.iters + [Iter(CLAIMED, 0, 0)], nextLock := Some(i))
    else
      var pc, src, dst := s.iters[i].pc, s.iters[i].src, s.iters[i].dst;
      var t := Bump(s, i);
      if pc == CLAIMED then t.(inLock := s.inLock[Slot(i) := Some(i)])
      else if pc == LOCKED_IN then t.(inLock := s.inLock[Slot(i + 1) := Some(i)])
      else if pc == LOCKED_NEXT_IN then t.(outLock := s.outLock[Slot(i + 1) := Some(i)])
      else if pc == LOCKED_NEXT_OUT then t.(nextLock := None)
      else if pc == ENTERED then t.(iters := s.iters[i := Iter(GOT_IN, s.inPtr[Slot(i)], dst)])
      else if pc == GOT_IN then t.(inPtr := s.inPtr[Slot(i + 1) := job.advance(i, src)])
      else if pc == SET_NEXT_IN then t.(inLock := s.inLock[Slot(i + 1) := None])
      else if pc == FREED_NEXT_IN then t.(outLock := s.outLock[Slot(i) := Some(i)])
      else if pc == LOCKED_OUT then t.(iters := s.iters[i := Iter(GOT_OUT, src, s.outPtr[Slot(i)])])
      else if pc == GOT_OUT then t.(outLock := s.outLock[Slot(i) := None])
      else if pc == FREED_OUT then t.(outPtr := s.outPtr[Slot(i + 1) := dst + |job.block(i, src)|])
      else if pc == SET_NEXT_OUT then t.(outLock := s.outLock[Slot(i + 1) := None])
      else if pc == FREED_NEXT_OUT then t.(inLock := s.inLock[Slot(i) := None])
      else t.(mem := Write(s.mem, dst, job.block(i, src)))
  }

  // ------------------------------------------------------------------------------------------------
  // The serial meaning

  function In(job: Job, i: nat): nat {
    if i == 0 then job.in0 else job.advance(i - 1, In(job, i - 1))
  }

  function Block(job: Job, i: nat): seq<byte> {
    job.block(i, In(job, i))
  }

  function Out(job: Job, i: nat): nat {
    if i == 0 then job.out0 else Out(job, i - 1) + |Block(job, i - 1)|
  }

  /** What a serial loop writes: the blocks one after the other. */
  function Serial(job: Job, n: nat): (r: seq<byte>)
    ensures job.out0 + |r| == Out(job, n)
  {
    if n == 0 then [] else Serial(job, n - 1) + Block(job, n - 1)
  }

  // ------------------------------------------------------------------------------------------------
  // The invariant

  /** Which slots iteration i holds, given how far it has come. */
  predicate HoldsIn(pc: nat, i: nat, slot: nat) {
    || (slot == Slot(i) && LOCKED_IN <= pc <= FREED_NEXT_OUT)
    || (slot == Slot(i + 1) && LOCKED_NEXT_IN <= pc <= SET_NEXT_IN)
  }

  predicate HoldsOut(pc: nat, i: nat, slot: nat) {
    || (slot == Slot(i + 1) && LOCKED_NEXT_OUT <= pc <= SET_NEXT_OUT)
    || (slot == Slot(i) && LOCKED_OUT <= pc <= GOT_OUT)
  }

  /** Locks are held by exactly the iterations between their acquire and their release. */
  ghost predicate LocksInv(s: Chain) {
    && Shaped(s)
    && NextLockInv(s)
    && (forall k: nat :: k < IOC_SIZE ==> InLockInv(s, k) && OutLockInv(s, k))
  }

  ghost predicate NextLockInv(s: Chain) {
    forall i: nat :: s.nextLock == Some(i) <==> CLAIMED <= Pc(s, i) <= LOCKED_NEXT_OUT
  }

  ghost predicate InLockInv(s: Chain, k: nat)
    requires Shaped(s) && k < IOC_SIZE
  {
    forall i: nat :: s.inLock[k] == Some(i) <==> HoldsIn(Pc(s, i), i, k)
  }

  ghost predicate OutLockInv(s: Chain, k: nat)
    requires Shaped(s) && k < IOC_SIZE
  {
    forall i: nat :: s.outLock[k] == Some(i) <==> HoldsOut(Pc(s, i), i, k)
  }

  /** All iterations but the youngest have left the counter's critical section, and claims are numbered in order. */
  predicate OrderInv(job: Job, s: Chain) {
    && |s.iters| <= job.total
    && (forall i :: 0 <= i < |s.iters| ==> CLAIMED <= s.iters[i].pc <= DONE)
    && (forall i :: 0 <= i < |s.iters| - 1 ==> s.iters[i].pc >= ENTERED)
  }

  /** No iteration is overtaken by a whole turn of the slots while it still holds its input lock. */
  predicate TurnInv(s: Chain) {
    forall i :: 0 <= i < |s.iters| ==> NotOvertaken(s, i)
  }

  predicate NotOvertaken(s: Chain, i: nat) {
    LOCKED_IN <= Pc(s, i) <= FREED_NEXT_OUT ==> |s.iters| <= i + 33 && (|s.iters| == i + 33 ==> Pc(s, i + 32) <= LOCKED_IN)
  }

  /** A position that has been handed on but not yet picked up is still in its slot. */
  ghost predicate InSlotsInv(job: Job, s: Chain)
    requires Shaped(s)
  {
    forall i: nat :: InFlight(s, i) ==> s.inPtr[Slot(i)] == In(job, i)
  }

  ghost predicate OutSlotsInv(job: Job, s: Chain)
    requires Shaped(s)
  {
    forall i: nat :: OutFlight(s, i) ==> s.outPtr[Slot(i)] == Out(job, i)
  }

  predicate InFlight(s: Chain, i: nat) {
    (i == 0 || Pc(s, i - 1) >= SET_NEXT_IN) && Pc(s, i) < GOT_IN
  }

  predicate OutFlight(s: Chain, i: nat) {
    (i == 0 || Pc(s, i - 1) >= SET_NEXT_OUT) && Pc(s, i) < GOT_OUT
  }

  /** Every iteration has read the positions the serial loop would have given it. */
  predicate ReadsInv(job: Job, s: Chain) {
    forall i :: 0 <= i < |s.iters| ==> HasRead(job, s.iters[i], i)
  }

  predicate HasRead(job: Job, it: Iter, i: nat) {
    (it.pc >= GOT_IN ==> it.src == In(job, i)) && (it.pc >= GOT_OUT ==> it.dst == Out(job, i))
  }

  ghost predicate Inv(job: Job, s: Chain) {
    LocksInv(s) && OrderInv(job, s) && TurnInv(s) && InSlotsInv(job, s) && OutSlotsInv(job, s) && ReadsInv(job, s)
  }

  predicate InBlock(job: Job, i: nat, a: nat) {
    Out(job, i) <= a < Out(job, i) + |Block(job, i)|
  }

  /** Finished blocks are in place, and nothing else has been written. */
  ghost predicate MemoryInv(job: Job, s: Chain, mem0: nat -> byte) {
    forall a: nat :: CellOk(job, s, mem0, a)
  }

  ghost predicate CellOk(job: Job, s: Chain, mem0: nat -> byte, a: nat) {
    Filled(job, s, a) && (Untouched(job, s, a) ==> s.mem(a) == mem0(a))
  }

  ghost predicate Filled(job: Job, s: Chain, a: nat) {
    forall i: nat :: InBlock(job, i, a) && Pc(s, i) == DONE ==> s.mem(a) == Block(job, i)[a - Out(job, i)]
  }

  ghost predicate Untouched(job: Job, s: Chain, a: nat) {
    forall i: nat :: InBlock(job, i, a) ==> Pc(s, i) != DONE
  }

  lemma InitialInv(job: Job, mem: nat -> byte)
    ensures Inv(job, Initial(job, mem)) && MemoryInv(job, Initial(job, mem), mem)
  {
  }

  // ------------------------------------------------------------------------------------------------
  // Every step keeps it

  lemma StepPc(job: Job, s: Chain, i: nat)
    requires Shaped(s) && CanStep(job, s, i)
    ensures forall j: nat :: Pc(Step(job, s, i), j) == if j == i then Pc(s, i) + 1 else Pc(s, j)
  {
  }

  lemma InLockKeeps(job: Job, s: Chain, i: nat, k: nat)
    requires Shaped(s) && k < IOC_SIZE && InLockInv(s, k) && CanStep(job, s, i)
    ensures InLockInv(Step(job, s, i), k)
  {
    var t := Step(job, s, i);
    StepPc(job, s, i);
    if k != Slot(i) && k != Slot(i + 1) {
      assert t.inLock[k] == s.inLock[k];
    } else {
      var held := HoldsIn(Pc(s, i), i, k);
      assert t.inLock[k] == if HoldsIn(Pc(t, i), i, k) == held then s.inLock[k] else if held then None else Some(i);
    }
  }

  lemma OutLockKeeps(job: Job, s: Chain, i: nat, k: nat)
    requires Shaped(s) && k < IOC_SIZE && OutLockInv(s, k) && CanStep(job, s, i)
    ensures OutLockInv(Step(job, s, i), k)
  {
    var t := Step(job, s, i);
    StepPc(job, s, i);
    if k != Slot(i) && k != Slot(i + 1) {
      assert t.outLock[k] == s.outLock[k];
    } else {
      var held := HoldsOut(Pc(s, i), i, k);
      assert t.outLock[k] == if HoldsOut(Pc(t, i), i, k) == held then s.outLock[k] else if held then None else Some(i);
    }
  }

  lemma NextLockKeeps(job: Job, s: Chain, i: nat)
    requires Shaped(s) && OrderInv(job, s) && CanStep(job, s, i) && NextLockInv(s)
    ensures NextLockInv(Step(job, s, i))
  {
    StepPc(job, s, i);
    assert i < |s.iters| ==> CLAIMED <= Pc(s, i);
  }

  lemma LocksKeep(job: Job, s: Chain, i: nat)
    requires LocksInv(s) && OrderInv(job, s) && CanStep(job, s, i)
    ensures LocksInv(Step(job, s, i))
  {
    StepPc(job, s, i);
    NextLockKeeps(job, s, i);
    forall k: nat | k < IOC_SIZE ensures InLockInv(Step(job, s, i), k) && OutLockInv(Step(job, s, i), k) {
      InLockKeeps(job, s, i, k);
      OutLockKeeps(job, s, i, k);
    }
  }

  lemma OrderKeep(job: Job, s: Chain, i: nat)
    requires LocksInv(s) && OrderInv(job, s) && CanStep(job, s, i)
    ensures OrderInv(job, Step(job, s, i))
  {
    if i == |s.iters| && i > 0 {
      assert Pc(s, i - 1) > LOCKED_NEXT_OUT;
    }
  }

  lemma TurnKeep(job: Job, s: Chain, i: nat)
    requires LocksInv(s) && OrderInv(job, s) && TurnInv(s) && CanStep(job, s, i)
    ensures TurnInv(Step(job, s, i))
  {
    StepPc(job, s, i);
    forall j | 0 <= j < |Step(job, s, i).iters| ensures NotOvertaken(Step(job, s, i), j) {
      if i == |s.iters| {
        ClaimKeepsTurn(job, s, i, j);
      } else {
        StepKeepsTurn(job, s, i, j);
      }
    }
  }

  lemma ClaimKeepsTurn(job: Job, s: Chain, i: nat, j: nat)
    requires Shaped(s) && NextLockInv(s) && OrderInv(job, s) && TurnInv(s) && CanStep(job, s, i)
    requires j <= i == |s.iters|
    ensures NotOvertaken(Step(job, s, i), j)
  {
    StepPc(job, s, i);
    if j < i {
      assert NotOvertaken(s, j);
      assert Pc(s, i - 1) > LOCKED_NEXT_OUT;
    }
  }

  lemma StepKeepsTurn(job: Job, s: Chain, i: nat, j: nat)
    requires LocksInv(s) && OrderInv(job, s) && TurnInv(s) && CanStep(job, s, i)
    requires i < |s.iters| && j < |s.iters|
    ensures NotOvertaken(Step(job, s, i), j)
  {
    var t := Step(job, s, i);
    StepPc(job, s, i);
    assert |t.iters| == |s.iters|;
    assert NotOvertaken(s, j);
    if i == j {
      // An iteration takes its input lock before it lets the next one in.
      assert Pc(s, i) == CLAIMED ==> i == |s.iters| - 1;
    } else if Pc(s, i) == LOCKED_IN {
      // The slot after iteration i may be the one iteration j still holds.
      FreeIn(s, Slot(i + 1), j);
      assert i == j + 32 ==> Slot(j) == Slot(i + 1);
    }
  }

  lemma FreeIn(s: Chain, k: nat, j: nat)
    requires LocksInv(s) && k < IOC_SIZE && s.inLock[k] == None
    ensures !HoldsIn(Pc(s, j), j, k)
  {
    assert InLockInv(s, k);
  }

  /** Nobody else writes a slot whose content is in flight. */
  lemma NoOverwrite(job: Job, s: Chain, i: nat, j: nat)
    requires OrderInv(job, s) && TurnInv(s)
    requires i != j + 1 && Slot(i) == Slot(j + 1) && j < |s.iters|
    ensures Pc(s, j) == GOT_IN ==> !InFlight(s, i)
    ensures Pc(s, j) == FREED_OUT ==> !OutFlight(s, i)
  {
    SlotsApart(i, j + 1);
    assert NotOvertaken(s, j);
    if i < j + 1 {
      assert NotOvertaken(s, i);
      assert Pc(s, i) >= ENTERED;
    }
  }

  /** Equal slots, unequal numbers: at least a whole turn apart. */
  lemma SlotsApart(i: nat, j: nat)
    requires i != j && Slot(i) == Slot(j)
    ensures i + 33 <= j || j + 33 <= i
  {
  }

  lemma InSlotsKeep(job: Job, s: Chain, i: nat)
    requires Inv(job, s) && CanStep(job, s, i)
    ensures InSlotsInv(job, Step(job, s, i))
  {
    var t := Step(job, s, i);
    StepPc(job, s, i);
    forall j: nat | InFlight(t, j) ensures t.inPtr[Slot(j)] == In(job, j) {
      if Pc(s, i) == GOT_IN && j == i + 1 {
        assert t.inPtr[Slot(j)] == job.advance(i, s.iters[i].src);
      } else {
        assert InFlight(s, j);
        if Pc(s, i) == GOT_IN && Slot(j) == Slot(i + 1) { NoOverwrite(job, s, j, i); }
      }
    }
  }

  lemma OutSlotsKeep(job: Job, s: Chain, i: nat)
    requires Inv(job, s) && CanStep(job, s, i)
    ensures OutSlotsInv(job, Step(job, s, i))
  {
    var t := Step(job, s, i);
    StepPc(job, s, i);
    forall j: nat | OutFlight(t, j) ensures t.outPtr[Slot(j)] == Out(job, j) {
      if Pc(s, i) == FREED_OUT && j == i + 1 {
        assert t.outPtr[Slot(j)] == s.iters[i].dst + |job.block(i, s.iters[i].src)|;
      } else {
        assert OutFlight(s, j);
        if Pc(s, i) == FREED_OUT && Slot(j) == Slot(i + 1) { NoOverwrite(job, s, j, i); }
      }
    }
  }

  /** An iteration that holds its input lock has a predecessor that has let go of it, so the slot is filled. */
  lemma InputIsFilled(job: Job, s: Chain, i: nat)
    requires LocksInv(s) && OrderInv(job, s)
    requires LOCKED_IN <= Pc(s, i) < GOT_IN
    ensures InFlight(s, i)
  {
    if i > 0 {
      var k := Slot(i);
      assert InLockInv(s, k);
      assert s.inLock[k] == Some(i);
      assert !HoldsIn(Pc(s, i - 1), i - 1, k);
      assert Slot(i - 1 + 1) == k;
    }
  }

  lemma OutputIsFilled(job: Job, s: Chain, i: nat)
    requires LocksInv(s) && OrderInv(job, s)
    requires Pc(s, i) == LOCKED_OUT
    ensures OutFlight(s, i)
  {
    if i > 0 {
      var k := Slot(i);
      assert OutLockInv(s, k);
      assert s.outLock[k] == Some(i);
      assert !HoldsOut(Pc(s, i - 1), i - 1, k);
      assert Slot(i - 1 + 1) == k;
    }
  }

  lemma ReadsKeep(job: Job, s: Chain, i: nat)
    requires Inv(job, s) && CanStep(job, s, i)
    ensures ReadsInv(job, Step(job, s, i))
  {
    StepPc(job, s, i);
    if Pc(s, i) == ENTERED { InputIsFilled(job, s, i); }
    if Pc(s, i) == LOCKED_OUT { OutputIsFilled(job, s, i); }
    forall j | 0 <= j < |Step(job, s, i).iters| ensures HasRead(job, Step(job, s, i).iters[j], j) {
      if j < |s.iters| { assert HasRead(job, s.iters[j], j); }
    }
  }

  // ------------------------------------------------------------------------------------------------
  // Memory

  lemma {:induction false} OutGrows(job: Job, i: nat, j: nat)
    requires i <= j
    ensures Out(job, i) <= Out(job, j)
    ensures i < j ==> Out(job, i) + |Block(job, i)| <= Out(job, j)
  {
    if i < j {
      OutGrows(job, i, j - 1);
    }
  }

  /** Different iterations write different places. */
  lemma BlocksApart(job: Job, i: nat, j: nat, a: nat)
    requires i != j && InBlock(job, i, a)
    ensures !InBlock(job, j, a)
  {
    if i < j { OutGrows(job, i, j); } else { OutGrows(job, j, i); }
  }

  /** Only the last step of an iteration writes, and it writes the block where the serial loop would. */
  lemma StepWrites(job: Job, s: Chain, i: nat, a: nat)
    requires Shaped(s) && OrderInv(job, s) && ReadsInv(job, s) && CanStep(job, s, i)
    ensures Step(job, s, i).mem(a) ==
            if Pc(s, i) == FREED_IN && InBlock(job, i, a) then Block(job, i)[a - Out(job, i)] else s.mem(a)
  {
    if i < |s.iters| { assert HasRead(job, s.iters[i], i); }
  }

  lemma FilledKeeps(job: Job, s: Chain, t: Chain, i: nat, a: nat)
    requires Filled(job, s, a)
    requires forall j: nat :: Pc(t, j) == if j == i then Pc(s, i) + 1 else Pc(s, j)
    requires t.mem(a) == if Pc(t, i) == DONE && InBlock(job, i, a) then Block(job, i)[a - Out(job, i)] else s.mem(a)
    ensures Filled(job, t, a)
  {
    forall j: nat | InBlock(job, j, a) && Pc(t, j) == DONE ensures t.mem(a) == Block(job, j)[a - Out(job, j)] {
      if j != i { BlocksApart(job, j, i, a); }
    }
  }

  lemma UntouchedKeeps(job: Job, s: Chain, t: Chain, i: nat, a: nat)
    requires Untouched(job, t, a) && Pc(s, i) != DONE
    requires forall j: nat :: Pc(t, j) == if j == i then Pc(s, i) + 1 else Pc(s, j)
    requires Pc(t, i) != DONE || !InBlock(job, i, a) ==> t.mem(a) == s.mem(a)
    ensures Untouched(job, s, a) && t.mem(a) == s.mem(a)
  {
    forall j: nat | InBlock(job, j, a) ensures Pc(s, j) != DONE {
      assert Pc(t, j) != DONE;
    }
  }

  lemma MemoryKeeps(job: Job, s: Chain, i: nat, mem0: nat -> byte)
    requires Inv(job, s) && MemoryInv(job, s, mem0) && CanStep(job, s, i)
    ensures MemoryInv(job, Step(job, s, i), mem0)
  {
    forall a: nat ensures CellOk(job, Step(job, s, i), mem0, a) {
      assert CellOk(job, s, mem0, a);
      StepPc(job, s, i);
      StepWrites(job, s, i, a);
      FilledKeeps(job, s, Step(job, s, i), i, a);
      if Untouched(job, Step(job, s, i), a) { UntouchedKeeps(job, s, Step(job, s, i), i, a); }
    }
  }

  lemma StepKeeps(job: Job, s: Chain, i: nat)
    requires Inv(job, s) && CanStep(job, s, i)
    ensures Inv(job, Step(job, s, i))
  {
    LocksKeep(job, s, i);
    OrderKeep(job, s, i);
    TurnKeep(job, s, i);
    InSlotsKeep(job, s, i);
    OutSlotsKeep(job, s, i);
    ReadsKeep(job, s, i);
  }

  // ------------------------------------------------------------------------------------------------
  // Runs

  /** Any thread may go next: a run is the sequence of iterations that step.  A step that must wait does nothing. */
  function Run(job: Job, s: Chain, schedule: seq<nat>): (t: Chain)
    requires Shaped(s)
    ensures Shaped(t)
    decreases |schedule|
  {
    if schedule == [] then s
    else Run(job, if CanStep(job, s, schedule[0]) then Step(job, s, schedule[0]) else s, schedule[1..])
  }

  lemma {:induction false} RunKeeps(job: Job, s: Chain, schedule: seq<nat>, mem0: nat -> byte)
    requires Inv(job, s) && MemoryInv(job, s, mem0)
    ensures Inv(job, Run(job, s, schedule)) && MemoryInv(job, Run(job, s, schedule), mem0)
    decreases |schedule|
  {
    if schedule != [] {
      var i := schedule[0];
      if CanStep(job, s, i) {
        StepKeeps(job, s, i);
        MemoryKeeps(job, s, i, mem0);
        RunKeeps(job, Step(job, s, i), schedule[1..], mem0);
      } else {
        RunKeeps(job, s, schedule[1..], mem0);
      }
    }
  }

  /** Whatever the schedule, an iteration that has read its positions has read those of the serial loop. */
  lemma ReadsAreSerial(job: Job, mem0: nat -> byte, schedule: seq<nat>, i: nat)
    ensures var s := Run(job, Initial(job, mem0), schedule);
            && (Pc(s, i) >= GOT_IN ==> s.iters[i].src == In(job, i))
            && (Pc(s, i) >= GOT_OUT ==> s.iters[i].dst == Out(job, i))
  {
    InitialInv(job, mem0);
    RunKeeps(job, Initial(job, mem0), schedule, mem0);
    var s := Run(job, Initial(job, mem0), schedule);
    if i < |s.iters| { assert HasRead(job, s.iters[i], i); }
  }

  /** No position is overwritten between being handed on and being picked up. */
  lemma HandedOnIsKept(job: Job, mem0: nat -> byte, schedule: seq<nat>, i: nat)
    ensures var s := Run(job, Initial(job, mem0), schedule);
            && (InFlight(s, i) ==> s.inPtr[Slot(i)] == In(job, i))
            && (OutFlight(s, i) ==> s.outPtr[Slot(i)] == Out(job, i))
  {
    InitialInv(job, mem0);
    RunKeeps(job, Initial(job, mem0), schedule, mem0);
  }

  // ------------------------------------------------------------------------------------------------
  // Progress

  predicate Finished(job: Job, s: Chain) {
    |s.iters| == job.total && forall i :: 0 <= i < |s.iters| ==> s.iters[i].pc == DONE
  }

  /** All iterations below i have let go of everything. */
  predicate LowestUnfinished(job: Job, s: Chain, i: nat) {
    && i < job.total && i <= |s.iters|
    && (forall j :: 0 <= j < i ==> s.iters[j].pc == DONE)
    && Pc(s, i) < DONE
  }

  lemma NextIsFree(job: Job, s: Chain, i: nat)
    requires Inv(job, s) && LowestUnfinished(job, s, i) && i == |s.iters|
    ensures s.nextLock == None
  {
    forall j: nat ensures s.nextLock != Some(j) {
      if j < i { assert s.iters[j].pc == DONE; }
    }
  }

  lemma NobodyHoldsIn(job: Job, s: Chain, i: nat, k: nat, j: nat)
    requires OrderInv(job, s) && LowestUnfinished(job, s, i) && i < |s.iters|
    requires (Pc(s, i) == CLAIMED && k == Slot(i)) || (Pc(s, i) == LOCKED_IN && k == Slot(i + 1))
    ensures !HoldsIn(Pc(s, j), j, k)
  {
    assert i == |s.iters| - 1;
    if j < i { assert s.iters[j].pc == DONE; }
  }

  lemma NobodyHoldsOut(job: Job, s: Chain, i: nat, k: nat, j: nat)
    requires OrderInv(job, s) && TurnInv(s) && LowestUnfinished(job, s, i) && i < |s.iters|
    requires (Pc(s, i) == LOCKED_NEXT_IN && k == Slot(i + 1)) || (Pc(s, i) == FREED_NEXT_IN && k == Slot(i))
    ensures !HoldsOut(Pc(s, j), j, k)
  {
    assert NotOvertaken(s, i);
    if j < i {
      assert s.iters[j].pc == DONE;
    } else if j > i && Pc(s, i) == FREED_NEXT_IN {
      if Slot(j) == Slot(i) { SlotsApart(i, j); }
      if Slot(j + 1) == Slot(i) { SlotsApart(i, j + 1); }
    }
  }

  /** A lock the lowest unfinished iteration wants is never held. */
  lemma WantedInIsFree(job: Job, s: Chain, i: nat, k: nat)
    requires Inv(job, s) && LowestUnfinished(job, s, i) && i < |s.iters|
    requires (Pc(s, i) == CLAIMED && k == Slot(i)) || (Pc(s, i) == LOCKED_IN && k == Slot(i + 1))
    ensures s.inLock[k] == None
  {
    assert InLockInv(s, k);
    forall j: nat ensures s.inLock[k] != Some(j) { NobodyHoldsIn(job, s, i, k, j); }
  }

  lemma WantedOutIsFree(job: Job, s: Chain, i: nat, k: nat)
    requires Inv(job, s) && LowestUnfinished(job, s, i) && i < |s.iters|
    requires (Pc(s, i) == LOCKED_NEXT_IN && k == Slot(i + 1)) || (Pc(s, i) == FREED_NEXT_IN && k == Slot(i))
    ensures s.outLock[k] == None
  {
    assert OutLockInv(s, k);
    forall j: nat ensures s.outLock[k] != Some(j) { NobodyHoldsOut(job, s, i, k, j); }
  }

  /** The lowest unfinished iteration can always step, so there is no deadlock. */
  lemma LowestCanStep(job: Job, s: Chain, i: nat)
    requires Inv(job, s) && LowestUnfinished(job, s, i)
    ensures CanStep(job, s, i)
  {
    if i == |s.iters| {
      NextIsFree(job, s, i);
    } else {
      if Pc(s, i) == CLAIMED { WantedInIsFree(job, s, i, Slot(i)); }
      if Pc(s, i) == LOCKED_IN { WantedInIsFree(job, s, i, Slot(i + 1)); }
      if Pc(s, i) == LOCKED_NEXT_IN { WantedOutIsFree(job, s, i, Slot(i + 1)); }
      if Pc(s, i) == FREED_NEXT_IN { WantedOutIsFree(job, s, i, Slot(i)); }
    }
  }

  lemma FindLowest(job: Job, s: Chain) returns (i: nat)
    requires OrderInv(job, s) && !Finished(job, s)
    ensures LowestUnfinished(job, s, i)
  {
    i := 0;
    while i < |s.iters| && s.iters[i].pc == DONE
      invariant i <= |s.iters| && forall j :: 0 <= j < i ==> s.iters[j].pc == DONE
    {
      i := i + 1;
    }
  }

  /** A run that can go no further has finished, and has written exactly what the serial loop writes. */
  lemma StuckMeansSerial(job: Job, mem0: nat -> byte, schedule: seq<nat>)
    requires forall i: nat :: !CanStep(job, Run(job, Initial(job, mem0), schedule), i)
    ensures var s := Run(job, Initial(job, mem0), schedule);
            && Finished(job, s)
            && (forall k :: 0 <= k < |Serial(job, job.total)| ==> s.mem(job.out0 + k) == Serial(job, job.total)[k])
            && (forall a: nat :: a < job.out0 || job.out0 + |Serial(job, job.total)| <= a ==> s.mem(a) == mem0(a))
  {
    var s := Run(job, Initial(job, mem0), schedule);
    InitialInv(job, mem0);
    RunKeeps(job, Initial(job, mem0), schedule, mem0);
    if !Finished(job, s) {
      var i := FindLowest(job, s);
      LowestCanStep(job, s, i);
      assert false;
    }
    FinishedIsSerial(job, s, mem0);
  }

  lemma FinishedIsSerial(job: Job, s: Chain, mem0: nat -> byte)
    requires MemoryInv(job, s, mem0) && Finished(job, s)
    ensures forall k :: 0 <= k < |Serial(job, job.total)| ==> s.mem(job.out0 + k) == Serial(job, job.total)[k]
    ensures forall a: nat :: a < job.out0 || job.out0 + |Serial(job, job.total)| <= a ==> s.mem(a) == mem0(a)
  {
    forall k | 0 <= k < |Serial(job, job.total)|
      ensures s.mem(job.out0 + k) == Serial(job, job.total)[k]
    {
      FilledCell(job, s, mem0, k);
    }
    forall a: nat | a < job.out0 || job.out0 + |Serial(job, job.total)| <= a ensures s.mem(a) == mem0(a) {
      CellOutside(job, s, mem0, a);
    }
  }

  lemma FilledCell(job: Job, s: Chain, mem0: nat -> byte, k: nat)
    requires MemoryInv(job, s, mem0) && Finished(job, s) && k < |Serial(job, job.total)|
    ensures s.mem(job.out0 + k) == Serial(job, job.total)[k]
  {
    var i := SerialAt(job, job.total, k);
    FilledAt(job, s, mem0, i, job.out0 + k);
  }

  lemma FilledAt(job: Job, s: Chain, mem0: nat -> byte, i: nat, a: nat)
    requires MemoryInv(job, s, mem0) && Finished(job, s) && i < job.total && InBlock(job, i, a)
    ensures s.mem(a) == Block(job, i)[a - Out(job, i)]
  {
    assert CellOk(job, s, mem0, a);
    assert Pc(s, i) == DONE;
  }

  lemma CellOutside(job: Job, s: Chain, mem0: nat -> byte, a: nat)
    requires MemoryInv(job, s, mem0) && Finished(job, s)
    requires a < job.out0 || Out(job, job.total) <= a
    ensures s.mem(a) == mem0(a)
  {
    assert CellOk(job, s, mem0, a);
    forall i: nat | InBlock(job, i, a) ensures Pc(s, i) != DONE {
      OutGrows(job, 0, i);
      if i < job.total { OutGrows(job, i, job.total); }
    }
  }

  /** Which block a byte of the serial output belongs to. */
  lemma {:induction false} SerialAt(job: Job, n: nat, k: nat) returns (i: nat)
    requires k < |Serial(job, n)|
    ensures i < n && InBlock(job, i, job.out0 + k)
    ensures Serial(job, n)[k] == Block(job, i)[job.out0 + k - Out(job, i)]
  {
    if k < |Serial(job, n - 1)| {
      i := SerialAt(job, n - 1, k);
    } else {
      i := n - 1;
    }
  }

  /** Every step brings the end nearer. */
  function Work(s: Chain): nat {
    Sum(s.iters)
  }

  function Sum(iters: seq<Iter>): nat {
    if iters == [] then 0 else Sum(iters[..|iters| - 1]) + iters[|iters| - 1].pc
  }

  lemma {:induction false} SumUpdate(iters: seq<Iter>, i: nat, it: Iter)
    requires i < |iters|
    ensures Sum(iters[i := it]) == Sum(iters) + it.pc - iters[i].pc
  {
    var n := |iters| - 1;
    if i < n {
      SumUpdate(iters[..n], i, it);
      assert iters[i := it][..n] == iters[..n][i := it];
    } else {
      assert iters[i := it][..n] == iters[..n];
    }
  }

  lemma {:induction false} SumBound(iters: seq<Iter>)
    requires forall i :: 0 <= i < |iters| ==> iters[i].pc <= DONE
    ensures Sum(iters) <= 15 * |iters|
  {
    if iters != [] { SumBound(iters[..|iters| - 1]); }
  }

  lemma WorkGrows(job: Job, s: Chain, i: nat)
    requires Inv(job, s) && CanStep(job, s, i)
    ensures Work(Step(job, s, i)) == Work(s) + 1 <= 15 * job.total
  {
    var t := Step(job, s, i);
    if i == |s.iters| {
      assert t.iters[..i] == s.iters;
    } else {
      assert t.iters == s.iters[i := t.iters[i]] && t.iters[i].pc == s.iters[i].pc + 1;
      SumUpdate(s.iters, i, t.iters[i]);
    }
    OrderKeep(job, s, i);
    SumBound(t.iters);
  }

  lemma WorkBound(job: Job, s: Chain)
    requires OrderInv(job, s)
    ensures Work(s) <= 15 * job.total
  {
    SumBound(s.iters);
  }

  /** From any state on there is a way to the end, and it is short. */
  lemma FinishFrom(job: Job, s: Chain, mem0: nat -> byte) returns (more: seq<nat>)
    requires Inv(job, s) && MemoryInv(job, s, mem0)
    ensures Finished(job, Run(job, s, more)) && |more| + Work(s) <= 15 * job.total
    decreases 15 * job.total - Work(s)
  {
    assert Shaped(s);
    hide Work, LocksInv, TurnInv, InSlotsInv, OutSlotsInv, ReadsInv, MemoryInv, CanStep, Step;
    WorkBound(job, s);
    if Finished(job, s) {
      more := [];
    } else {
      var i := FindLowest(job, s);
      LowestCanStep(job, s, i);
      StepKeeps(job, s, i);
      MemoryKeeps(job, s, i, mem0);
      WorkGrows(job, s, i);
      var rest := FinishFrom(job, Step(job, s, i), mem0);
      more := [i] + rest;
      assert more[1..] == rest;
    }
  }

  lemma {:induction false} RunOn(job: Job, s: Chain, schedule: seq<nat>, more: seq<nat>)
    requires Shaped(s)
    ensures Run(job, s, schedule + more) == Run(job, Run(job, s, schedule), more)
    decreases |schedule|
  {
    if schedule == [] {
      assert schedule + more == more;
    } else {
      assert (schedule + more)[1..] == schedule[1..] + more;
      RunOn(job, if CanStep(job, s, schedule[0]) then Step(job, s, schedule[0]) else s, schedule[1..], more);
    }
  }

  /** Whatever has happened so far, the run can be completed, in at most 15 steps for each iteration, to the serial output. */
  lemma EveryRunCanFinish(job: Job, mem0: nat -> byte, schedule: seq<nat>) returns (more: seq<nat>)
    ensures |more| <= 15 * job.total && Finished(job, Run(job, Initial(job, mem0), schedule + more))
    ensures var s := Run(job, Initial(job, mem0), schedule + more);
            && (forall k :: 0 <= k < |Serial(job, job.total)| ==> s.mem(job.out0 + k) == Serial(job, job.total)[k])
            && (forall a: nat :: a < job.out0 || job.out0 + |Serial(job, job.total)| <= a ==> s.mem(a) == mem0(a))
  {
    InitialInv(job, mem0);
    RunKeeps(job, Initial(job, mem0), schedule, mem0);
    hide Inv, MemoryInv, Finished, Run, Serial;
    more := FinishFrom(job, Run(job, Initial(job, mem0), schedule), mem0);
    RunOn(job, Initial(job, mem0), schedule, more);
    RunKeeps(job, Initial(job, mem0), schedule + more, mem0);
    FinishedIsSerial(job, Run(job, Initial(job, mem0), schedule + more), mem0);
  }

  /** Steps of a schedule that could be taken. */
  function Taken(job: Job, s: Chain, schedule: seq<nat>): nat
    requires Shaped(s)
    decreases |schedule|
  {
    if schedule == [] then 0
    else if CanStep(job, s, schedule[0]) then 1 + Taken(job, Step(job, s, schedule[0]), schedule[1..])
    else Taken(job, s, schedule[1..])
  }

  /** No run takes more steps than that. */
  lemma {:induction false} RunsAreShort(job: Job, s: Chain, schedule: seq<nat>)
    requires Inv(job, s)
    ensures Taken(job, s, schedule) + Work(s) <= 15 * job.total
    decreases |schedule|
  {
    assert Shaped(s);
    hide Work, LocksInv, TurnInv, InSlotsInv, OutSlotsInv, ReadsInv, CanStep, Step;
    WorkBound(job, s);
    if schedule != [] {
      var i := schedule[0];
      if CanStep(job, s, i) {
        StepKeeps(job, s, i);
        WorkGrows(job, s, i);
        RunsAreShort(job, Step(job, s, i), schedule[1..]);
      } else {
        RunsAreShort(job, s, schedule[1..]);
      }
    }
  }
}
