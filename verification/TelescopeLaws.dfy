/**
  What the cascade conserves: the pushed data (in order, up to what the bottom level evicted), the meaning of
  the RFI masks, and, once anything has been evicted, a minimum amount of retained history.
*/
module TelescopeLaws {
  import opened Options
  import opened Telescope

  // ------------------------------------------------------------------------------------------------
  // When a plan can be made at all

  /** A cascade reaches level k exactly when every level above k is full. */
  predicate Reaches(levels: seq<seq<Chunk>>, caps: seq<nat>, k: nat)
    requires |levels| == |caps| && k < |levels|
  {
    forall j :: 0 <= j <= k ==> |levels[j]| >= caps[j]
  }

  /** The chunks leaving level k have their masks: two of them, or one at the bottom. */
  predicate OldestMasked(levels: seq<seq<Chunk>>, k: nat)
    requires k < |levels|
  {
    && |levels[k]| >= 2
    && levels[k][0].mask.Some? && (k < |levels| - 1 ==> levels[k][1].mask.Some?)
  }

  /** Every chunk that the next push moves out of a level has its mask by now. */
  predicate MasksInTime(levels: seq<seq<Chunk>>, caps: seq<nat>)
    requires |levels| == |caps| && Roomy(caps)
  {
    forall k :: 0 <= k < |levels| && Reaches(levels, caps, k) ==> OldestMasked(levels, k)
  }

  /**
    Four levels is as deep as binnings go: merging two chunks of the fourth level would need a binning of 16, which no
    chunk may have.  A push asks for that when there is a fifth level and the first four are full.
  */
  predicate TooDeep(levels: seq<seq<Chunk>>, caps: seq<nat>, ids: nat)
    requires |levels| == |caps| && ids <= 3
  {
    |levels| > 4 - ids && Reaches(levels, caps, 3 - ids)
  }

  /**
    A push succeeds if and only if every chunk that has to leave a level, because that level and all above it are full,
    has its mask by now (if masks are kept), and no merge is needed that would be too deep.  If the masks are there, depth
    is the only reason to fail; and only depth is ever reported as such.
  */
  lemma {:induction false} PlanReadyIff(levels: seq<seq<Chunk>>, caps: seq<nat>, ids: nat, c: Chunk, nrf: nat,
                                        lo: nat, hi: nat)
    requires Shape(levels, caps, ids) && ids <= 3
    requires Roomy(caps)
    requires MasksShaped(levels, nrf) && ChunkMaskShaped(c, nrf)
    requires Tiles(Span(levels), lo, hi)
    requires c.ichunk == hi && c.binning == Pow2(ids)
    ensures MakePlan(levels, caps, ids, c, nrf).Ready? <==>
            (nrf == 0 || MasksInTime(levels, caps)) && !TooDeep(levels, caps, ids)
    ensures (nrf == 0 || MasksInTime(levels, caps)) && TooDeep(levels, caps, ids) ==>
              MakePlan(levels, caps, ids, c, nrf) == Failed(BinningTooLarge)
    ensures MakePlan(levels, caps, ids, c, nrf) == Failed(BinningTooLarge) ==> TooDeep(levels, caps, ids)
    decreases |levels|
  {
    TopInTime(levels, caps);
    if |levels[0]| >= caps[0] && |levels| > 1 {
      var mid := SplitTop(levels, lo, hi);
      MergeTiles(levels[0], ids, mid, hi);
      if ids == 3 {
        assert Pow2(1) == 2 && Pow2(2) == 4 && Pow2(3) == 8 && Pow2(4) == 16;
        assert TooDeep(levels, caps, ids);
      } else {
        ReachesShift(levels, caps, if |levels| > 4 - ids then 2 - ids else 0);
        if nrf == 0 || OldestMasked(levels, 0) {
          Pow2Small(ids + 1);
          PlanOfFull(levels, caps, ids, c, nrf);
          PlanReadyIff(levels[1..], caps[1..], ids + 1, Merge(levels[0][0], levels[0][1], nrf), nrf, lo, mid);
          if nrf > 0 { ReachesTail(levels, caps); }
        }
      }
    }
  }

  lemma TopInTime(levels: seq<seq<Chunk>>, caps: seq<nat>)
    requires |levels| == |caps| > 0 && Roomy(caps)
    ensures |levels[0]| < caps[0] ==> MasksInTime(levels, caps)
    ensures |levels[0]| >= caps[0] && !OldestMasked(levels, 0) ==> !MasksInTime(levels, caps)
    ensures |levels[0]| >= caps[0] && |levels| == 1 ==> (MasksInTime(levels, caps) <==> OldestMasked(levels, 0))
  {
    if |levels[0]| >= caps[0] { assert Reaches(levels, caps, 0); }
    forall k | 0 <= k < |levels| && Reaches(levels, caps, k) ensures |levels[0]| >= caps[0] {
    }
  }

  lemma Pow2Small(n: nat)
    requires n <= 3
    ensures Pow2(n) <= 8
  {
    assert Pow2(0) == 1 && Pow2(1) == 2 && Pow2(2) == 4 && Pow2(3) == 8;
  }

  lemma ReachesTail(levels: seq<seq<Chunk>>, caps: seq<nat>)
    requires |levels| == |caps| > 1 && |levels[0]| >= caps[0] >= 2
    requires Roomy(caps)
    requires OldestMasked(levels, 0)
    ensures MasksInTime(levels, caps) <==> MasksInTime(levels[1..], caps[1..])
  {
    forall k | 0 <= k < |levels| - 1
      ensures Reaches(levels, caps, k + 1) <==> Reaches(levels[1..], caps[1..], k)
      ensures Reaches(levels, caps, k + 1) ==> (OldestMasked(levels, k + 1) <==> OldestMasked(levels[1..], k))
    {
      ReachesShift(levels, caps, k);
      assert levels[1..][k] == levels[k + 1];
    }
    if MasksInTime(levels[1..], caps[1..]) {
      forall k | 0 <= k < |levels| && Reaches(levels, caps, k) ensures OldestMasked(levels, k) {
        if k > 0 { assert Reaches(levels[1..], caps[1..], k - 1); assert OldestMasked(levels[1..], k - 1); }
      }
    }
    if MasksInTime(levels, caps) {
      forall k | 0 <= k < |levels[1..]| && Reaches(levels[1..], caps[1..], k) ensures OldestMasked(levels[1..], k) {
        assert Reaches(levels, caps, k + 1);
      }
    }
  }

  lemma ReachesShift(levels: seq<seq<Chunk>>, caps: seq<nat>, k: nat)
    requires |levels| == |caps| > 1 && |levels[0]| >= caps[0] && k < |levels| - 1
    ensures Reaches(levels, caps, k + 1) <==> Reaches(levels[1..], caps[1..], k)
  {
    if Reaches(levels[1..], caps[1..], k) {
      forall j | 0 <= j <= k + 1 ensures |levels[j]| >= caps[j] {
        if j > 0 { assert levels[1..][j - 1] == levels[j] && caps[1..][j - 1] == caps[j]; }
      }
    }
    if Reaches(levels, caps, k + 1) {
      forall j | 0 <= j <= k ensures |levels[1..][j]| >= caps[1..][j] {
        assert levels[1..][j] == levels[j + 1] && caps[1..][j] == caps[j + 1];
      }
    }
  }

  // ------------------------------------------------------------------------------------------------
  // Conservation of the pushed data

  function Leaves(c: Content): seq<seq<nat>> {
    match c
    case Raw(hits) => [hits]
    case Downsampled(a, b) => Leaves(a) + Leaves(b)
  }

  function AllLeaves(chunks: seq<Chunk>): seq<seq<nat>> {
    if chunks == [] then [] else Leaves(chunks[0].content) + AllLeaves(chunks[1..])
  }

  lemma {:induction false} LeavesConcat(a: seq<Chunk>, b: seq<Chunk>)
    ensures AllLeaves(a + b) == AllLeaves(a) + AllLeaves(b)
  {
    if a == [] {
      assert a + b == b;
    } else {
      LeavesConcat(a[1..], b);
      assert (a + b)[1..] == a[1..] + b;
      Associative(Leaves(a[0].content), AllLeaves(a[1..]), AllLeaves(b));
    }
  }

  lemma Associative<T>(a: seq<T>, b: seq<T>, c: seq<T>)
    ensures (a + b) + c == a + (b + c)
  {
  }

  lemma LeavesPair(a: Chunk, b: Chunk, rest: seq<Chunk>, nrf: nat)
    requires nrf > 0 ==> a.mask.Some? && b.mask.Some? && |a.mask.value| == |b.mask.value|
    ensures AllLeaves([a, b] + rest) == AllLeaves([Merge(a, b, nrf)]) + AllLeaves(rest)
  {
    assert [a, b] + rest == [a] + ([b] + rest);
    LeavesConcat([a], [b] + rest);
    LeavesConcat([b], rest);
    LeavesOne(a);
    LeavesOne(b);
    LeavesOne(Merge(a, b, nrf));
  }

  /** The part of the data that one push evicts: everything in the oldest bottom-level chunk, or nothing. */
  function Lost(levels: seq<seq<Chunk>>, caps: seq<nat>): seq<seq<nat>>
    requires |levels| == |caps| > 0 && Roomy(caps)
  {
    if AllFull(levels, caps) then
      AllFullAt(levels, caps, |levels| - 1);
      RoomyAll(caps);
      Leaves(levels[|levels| - 1][0].content)
    else []
  }

  /**
    One push loses nothing but the oldest chunk of a full bottom level, keeps the order of everything else,
    and appends what was pushed.
  */
  lemma {:induction false} PushConserves(levels: seq<seq<Chunk>>, caps: seq<nat>, ids: nat, c: Chunk, nrf: nat,
                                         lo: nat, hi: nat)
    requires Shape(levels, caps, ids)
    requires Roomy(caps)
    requires MasksShaped(levels, nrf) && ChunkMaskShaped(c, nrf)
    requires Tiles(Span(levels), lo, hi)
    requires c.ichunk == hi && c.binning == Pow2(ids)
    requires MakePlan(levels, caps, ids, c, nrf).Ready?
    ensures AllLeaves(Span(levels)) + Leaves(c.content) ==
            Lost(levels, caps) + AllLeaves(Span(Apply(levels, MakePlan(levels, caps, ids, c, nrf).plan)))
    decreases |levels|
  {
    var top := levels[0];
    if |top| < caps[0] || |levels| == 1 {
      ShallowConserves(levels, caps, ids, c, nrf);
    } else {
      LeavesConcat(Span(levels[1..]), top);
      var mid := SplitTop(levels, lo, hi);
      MergeTiles(top, ids, mid, hi);
      PlanOfFull(levels, caps, ids, c, nrf);
      var m := Merge(top[0], top[1], nrf);
      PushConserves(levels[1..], caps[1..], ids + 1, m, nrf, lo, mid);
      var sub := MakePlan(levels[1..], caps[1..], ids + 1, m, nrf);
      ApplyTail(levels, LevelPlan(2, Some(c)), sub.plan);
      LostTail(levels, caps);
      ConserveStep(top, c, nrf, Span(levels[1..]), Lost(levels, caps), Apply(levels[1..], sub.plan));
    }
  }

  lemma ShallowConserves(levels: seq<seq<Chunk>>, caps: seq<nat>, ids: nat, c: Chunk, nrf: nat)
    requires |levels| == |caps| > 0 && |levels[0]| <= caps[0]
    requires Roomy(caps)
    requires MasksShaped(levels, nrf)
    requires |levels[0]| < caps[0] || |levels| == 1
    requires MakePlan(levels, caps, ids, c, nrf).Ready?
    ensures AllLeaves(Span(levels)) + Leaves(c.content) ==
            Lost(levels, caps) + AllLeaves(Span(Apply(levels, MakePlan(levels, caps, ids, c, nrf).plan)))
  {
    LeavesOne(c);
    if |levels[0]| < caps[0] {
      InsertAfter(levels, caps, ids, c, nrf);
      LeavesConcat(Span(levels), [c]);
    } else {
      BottomAfter(levels, caps, ids, c, nrf);
      LeavesConcat(levels[0][1..], [c]);
      assert AllLeaves(levels[0]) == Leaves(levels[0][0].content) + AllLeaves(levels[0][1..]);
    }
  }

  lemma InsertAfter(levels: seq<seq<Chunk>>, caps: seq<nat>, ids: nat, c: Chunk, nrf: nat)
    requires |levels| == |caps| > 0 && |levels[0]| < caps[0]
    requires Roomy(caps)
    requires MasksShaped(levels, nrf)
    ensures MakePlan(levels, caps, ids, c, nrf).Ready?
    ensures Span(Apply(levels, MakePlan(levels, caps, ids, c, nrf).plan)) == Span(levels) + [c]
    ensures Lost(levels, caps) == []
  {
    var top := levels[0];
    PlanOfRoom(levels, caps, ids, c, nrf);
    SpanCons(top + [c], levels[1..]);
  }

  lemma BottomAfter(levels: seq<seq<Chunk>>, caps: seq<nat>, ids: nat, c: Chunk, nrf: nat)
    requires |levels| == |caps| == 1 && |levels[0]| == caps[0] >= 2
    requires MasksShaped(levels, nrf)
    requires MakePlan(levels, caps, ids, c, nrf).Ready?
    ensures Span(Apply(levels, MakePlan(levels, caps, ids, c, nrf).plan)) == levels[0][1..] + [c]
    ensures Span(levels) == levels[0]
    ensures Lost(levels, caps) == Leaves(levels[0][0].content)
  {
    assert levels[1..] == [];
    assert AllFull(levels, caps);
    var after := Apply(levels, MakePlan(levels, caps, ids, c, nrf).plan);
    assert after == [levels[0][1..] + [c]] + [];
    SpanCons(levels[0][1..] + [c], []);
  }

  lemma LeavesOne(c: Chunk)
    ensures AllLeaves([c]) == Leaves(c.content)
  {
    assert AllLeaves([c]) == Leaves(c.content) + AllLeaves([]);
  }

  /** The step of the induction: what happened below is known, the top level handed down its oldest pair. */
  lemma ConserveStep(top: seq<Chunk>, c: Chunk, nrf: nat, below: seq<Chunk>, lost: seq<seq<nat>>,
                     rest: seq<seq<Chunk>>)
    requires |top| >= 2
    requires nrf > 0 ==> top[0].mask.Some? && top[1].mask.Some? && |top[0].mask.value| == |top[1].mask.value|
    requires AllLeaves(below) + Leaves(Merge(top[0], top[1], nrf).content) == lost + AllLeaves(Span(rest))
    ensures AllLeaves(below) + AllLeaves(top) + Leaves(c.content) ==
            lost + AllLeaves(Span([top[2..] + [c]] + rest))
  {
    var m := Merge(top[0], top[1], nrf);
    SpanCons(top[2..] + [c], rest);
    LeavesConcat(Span(rest), top[2..] + [c]);
    LeavesConcat(top[2..], [c]);
    LeavesOne(c);
    LeavesOne(m);
    assert top == [top[0], top[1]] + top[2..];
    LeavesPair(top[0], top[1], top[2..], nrf);
    ConserveArith(AllLeaves(below), Leaves(m.content), AllLeaves(top[2..]), Leaves(c.content),
                  lost, AllLeaves(Span(rest)));
  }

  lemma LostTail(levels: seq<seq<Chunk>>, caps: seq<nat>)
    requires |levels| == |caps| > 1 && Roomy(caps)
    requires |levels[0]| == caps[0]
    ensures Lost(levels, caps) == Lost(levels[1..], caps[1..])
  {
    EvictedTail(levels, caps, 0);
    assert AllFull(levels, caps) <==> AllFull(levels[1..], caps[1..]);
  }

  lemma ConserveArith<T>(below: seq<T>, m: seq<T>, top: seq<T>, c: seq<T>, lost: seq<T>, rest: seq<T>)
    requires below + m == lost + rest
    ensures (below + (m + top)) + c == lost + (rest + (top + c))
  {
    assert (below + (m + top)) + c == (below + m) + (top + c);
    assert lost + (rest + (top + c)) == (lost + rest) + (top + c);
  }

  // ------------------------------------------------------------------------------------------------
  // How much history is retained

  function Total(levels: seq<seq<Chunk>>, ids: nat): nat {
    if levels == [] then 0 else |levels[0]| * Pow2(ids) + Total(levels[1..], ids + 1)
  }

  /** The guaranteed minimum once the buffer has filled: every level but the bottom one may be one chunk short. */
  function Floor(caps: seq<nat>, ids: nat): int
    requires |caps| > 0
  {
    if |caps| == 1 then caps[0] * Pow2(ids)
    else (caps[0] - 1) * Pow2(ids) + Floor(caps[1..], ids + 1)
  }

  /** The tiled length is what the sizes of the levels add up to. */
  lemma {:induction false} SpanLength(levels: seq<seq<Chunk>>, caps: seq<nat>, ids: nat, lo: nat, hi: nat)
    requires Shape(levels, caps, ids) && Tiles(Span(levels), lo, hi)
    ensures hi - lo == Total(levels, ids)
    decreases |levels|
  {
    assert levels == [levels[0]] + levels[1..];
    SpanCons(levels[0], levels[1..]);
    var mid := TilesSplit(Span(levels[1..]), levels[0], lo, hi);
    EvenTiles(levels[0], Pow2(ids), mid, hi);
    if |levels| > 1 {
      SpanLength(levels[1..], caps[1..], ids + 1, lo, mid);
    } else {
      assert Span(levels[1..]) == [];
      assert Total(levels[1..], ids + 1) == 0;
    }
  }

  lemma {:induction false} EvenTiles(a: seq<Chunk>, b: nat, lo: nat, hi: nat)
    requires Tiles(a, lo, hi) && forall i :: 0 <= i < |a| ==> a[i].binning == b
    ensures hi - lo == |a| * b
  {
    if a != [] {
      EvenTiles(a[1..], b, lo + b, hi);
      assert |a| * b == (|a| - 1) * b + b;
    }
  }

  /** A full bottom level forces every level above to be at most one chunk short. */
  lemma {:induction false} FullBottomKeepsHistory(levels: seq<seq<Chunk>>, caps: seq<nat>, ids: nat)
    requires Shape(levels, caps, ids) && |levels[|levels| - 1]| == caps[|levels| - 1]
    requires Roomy(caps)
    ensures Total(levels, ids) >= Floor(caps, ids)
    ensures |levels[0]| >= caps[0] - 1
    decreases |levels|
  {
    if |levels| > 1 {
      FullBottomKeepsHistory(levels[1..], caps[1..], ids + 1);
      assert levels[1] == levels[1..][0] && caps[1] == caps[1..][0];
      assert |levels[1]| >= 1;
      Times(|levels[0]|, caps[0] - 1, Pow2(ids));
    } else {
      assert Total(levels[1..], ids + 1) == 0;
    }
  }

  lemma Times(x: int, y: int, b: nat)
    requires x >= y
    ensures x * b >= y * b
  {
    assert (x - y) * b >= 0;
  }

  /** A full bottom level stays full, and the push that first evicts something finds it full. */
  lemma {:induction false} BottomStaysFull(levels: seq<seq<Chunk>>, caps: seq<nat>, ids: nat, c: Chunk, nrf: nat,
                                           lo: nat, hi: nat)
    requires Shape(levels, caps, ids)
    requires Roomy(caps)
    requires MasksShaped(levels, nrf) && ChunkMaskShaped(c, nrf)
    requires Tiles(Span(levels), lo, hi)
    requires c.ichunk == hi && c.binning == Pow2(ids)
    requires MakePlan(levels, caps, ids, c, nrf).Ready?
    requires |levels[|levels| - 1]| == caps[|levels| - 1]
    ensures var after := Apply(levels, MakePlan(levels, caps, ids, c, nrf).plan);
            |after[|levels| - 1]| == caps[|levels| - 1]
    decreases |levels|
  {
    var top := levels[0];
    if |levels| == 1 {
      assert levels[1..] == [];
    } else if |top| >= caps[0] {
      var mid := SplitTop(levels, lo, hi);
      MergeTiles(top, ids, mid, hi);
      PlanOfFull(levels, caps, ids, c, nrf);
      var m := Merge(top[0], top[1], nrf);
      BottomStaysFull(levels[1..], caps[1..], ids + 1, m, nrf, lo, mid);
      var sub := MakePlan(levels[1..], caps[1..], ids + 1, m, nrf);
      ApplyTail(levels, LevelPlan(2, Some(c)), sub.plan);
    } else {
      PlanOfRoom(levels, caps, ids, c, nrf);
    }
  }

  // ------------------------------------------------------------------------------------------------
  // The meaning of the masks

  /** Bit t (counted from the first sample of chunk 0) of row f of the level-0 masks. */
  predicate Bit(truth: nat -> Mask, f: nat, t: nat) {
    var m := truth(t / NT);
    f < |m| && t % NT < |m[f]| && m[f][t % NT]
  }

  predicate AllSet(truth: nat -> Mask, f: nat, lo: nat, hi: nat) {
    forall t: nat :: lo <= t < hi ==> Bit(truth, f, t)
  }

  /** Bit i of a chunk of binning B is the AND of the B level-0 bits it covers. */
  predicate MaskIsAnd(c: Chunk, truth: nat -> Mask, nrf: nat) {
    c.mask.Some? ==>
      && MaskShape(c.mask.value, nrf)
      && forall f, i :: 0 <= f < nrf && 0 <= i < NT ==>
                          c.mask.value[f][i] ==
                          AllSet(truth, f, c.ichunk * NT + i * c.binning, c.ichunk * NT + i * c.binning + c.binning)
  }

  /** A chunk of binning B was made of B raw chunks, and its mask says what it should. */
  predicate Means(c: Chunk, truth: nat -> Mask, nrf: nat) {
    |Leaves(c.content)| == c.binning && MaskIsAnd(c, truth, nrf)
  }

  /** Every chunk means what it should, and below level 0 every mask is present. */
  predicate MasksMean(levels: seq<seq<Chunk>>, ids: nat, truth: nat -> Mask, nrf: nat)
    decreases |levels|
  {
    levels == [] || (LevelMeans(levels[0], ids, truth, nrf) && MasksMean(levels[1..], ids + 1, truth, nrf))
  }

  predicate LevelMeans(level: seq<Chunk>, ids: nat, truth: nat -> Mask, nrf: nat) {
    forall i :: 0 <= i < |level| ==> Means(level[i], truth, nrf) && (nrf > 0 && ids > 0 ==> level[i].mask.Some?)
  }

  lemma {:induction false} MasksMeanAt(levels: seq<seq<Chunk>>, ids: nat, truth: nat -> Mask, nrf: nat, k: nat)
    requires MasksMean(levels, ids, truth, nrf) && k < |levels|
    ensures LevelMeans(levels[k], ids + k, truth, nrf)
    decreases k
  {
    if k > 0 { MasksMeanAt(levels[1..], ids + 1, truth, nrf, k - 1); }
  }

  lemma AllSetJoin(truth: nat -> Mask, f: nat, lo: nat, mid: nat, hi: nat)
    requires lo <= mid <= hi
    ensures AllSet(truth, f, lo, hi) == (AllSet(truth, f, lo, mid) && AllSet(truth, f, mid, hi))
  {
  }

  /** A filled level-0 mask trivially means itself. */
  lemma RawMaskMeans(c: Chunk, truth: nat -> Mask, nrf: nat)
    requires c.binning == 1 && c.mask == Some(truth(c.ichunk)) && MaskShape(truth(c.ichunk), nrf)
    ensures MaskIsAnd(c, truth, nrf)
  {
    forall f, i | 0 <= f < nrf && 0 <= i < NT
      ensures c.mask.value[f][i] ==
              AllSet(truth, f, c.ichunk * NT + i * c.binning, c.ichunk * NT + i * c.binning + c.binning)
    {
      var t := c.ichunk * NT + i;
      assert t / NT == c.ichunk && t % NT == i;
      assert Bit(truth, f, t) == c.mask.value[f][i];
    }
  }

  /** Merging two adjacent masks keeps the meaning at twice the binning. */
  lemma MergeMeans(a: Chunk, b: Chunk, truth: nat -> Mask, nrf: nat)
    requires nrf > 0 && a.mask.Some? && b.mask.Some?
    requires MaskIsAnd(a, truth, nrf) && MaskIsAnd(b, truth, nrf)
    requires a.binning == b.binning && b.ichunk == a.ichunk + b.binning
    ensures MaskIsAnd(Merge(a, b, nrf), truth, nrf)
  {
    var m := Merge(a, b, nrf);
    forall f, i | 0 <= f < nrf && 0 <= i < NT
      ensures m.mask.value[f][i] ==
              AllSet(truth, f, m.ichunk * NT + i * m.binning, m.ichunk * NT + i * m.binning + m.binning)
    {
      var B := a.binning;
      if i < NT / 2 {
        MergedBit(a, truth, nrf, f, i);
        HalfAddress(a.ichunk, B, i);
        assert m.mask.value[f][i] == (a.mask.value[f][2 * i] && a.mask.value[f][2 * i + 1]);
      } else {
        MergedBit(b, truth, nrf, f, i - NT / 2);
        UpperAddress(a.ichunk, B, i);
        assert m.mask.value[f][i] == (b.mask.value[f][2 * (i - NT / 2)] && b.mask.value[f][2 * (i - NT / 2) + 1]);
      }
    }
  }

  lemma MergedBit(c: Chunk, truth: nat -> Mask, nrf: nat, f: nat, i: nat)
    requires c.mask.Some? && MaskIsAnd(c, truth, nrf) && f < nrf && i < NT / 2
    ensures (c.mask.value[f][2 * i] && c.mask.value[f][2 * i + 1]) ==
            AllSet(truth, f, c.ichunk * NT + (2 * i) * c.binning, c.ichunk * NT + (2 * i) * c.binning + 2 * c.binning)
  {
    var B := c.binning;
    var lo := c.ichunk * NT + (2 * i) * B;
    assert c.ichunk * NT + (2 * i + 1) * B == lo + B;
    AllSetJoin(truth, f, lo, lo + B, lo + 2 * B);
  }

  lemma HalfAddress(ichunk: nat, B: nat, i: nat)
    ensures ichunk * NT + i * (2 * B) == ichunk * NT + (2 * i) * B
  {
  }

  lemma UpperAddress(ichunk: nat, B: nat, i: nat)
    requires NT / 2 <= i
    ensures ichunk * NT + i * (2 * B) == (ichunk + B) * NT + (2 * (i - NT / 2)) * B
  {
    var j := i - NT / 2;
    assert i * (2 * B) == j * (2 * B) + NT * B;
  }

  /** Through the whole cascade: if the masks mean what they should before a push, they do after it. */
  lemma {:induction false} PushKeepsMaskMeaning(levels: seq<seq<Chunk>>, caps: seq<nat>, ids: nat, c: Chunk,
                                                nrf: nat, truth: nat -> Mask, lo: nat, hi: nat)
    requires Shape(levels, caps, ids)
    requires Roomy(caps)
    requires MasksShaped(levels, nrf) && ChunkMaskShaped(c, nrf)
    requires Tiles(Span(levels), lo, hi)
    requires c.ichunk == hi && c.binning == Pow2(ids)
    requires MasksMean(levels, ids, truth, nrf) && Means(c, truth, nrf)
    requires nrf > 0 && ids > 0 ==> c.mask.Some?
    requires MakePlan(levels, caps, ids, c, nrf).Ready?
    ensures MasksMean(Apply(levels, MakePlan(levels, caps, ids, c, nrf).plan), ids, truth, nrf)
    decreases |levels|
  {
    var top := levels[0];
    if |top| >= caps[0] && |levels| > 1 {
      var mid := SplitTop(levels, lo, hi);
      MergeTiles(top, ids, mid, hi);
      PlanOfFull(levels, caps, ids, c, nrf);
      var m := Merge(top[0], top[1], nrf);
      assert Means(top[0], truth, nrf) && Means(top[1], truth, nrf);
      if nrf > 0 { MergeMeans(top[0], top[1], truth, nrf); }
      assert Means(m, truth, nrf);
      PushKeepsMaskMeaning(levels[1..], caps[1..], ids + 1, m, nrf, truth, lo, mid);
      var sub := MakePlan(levels[1..], caps[1..], ids + 1, m, nrf);
      ApplyTail(levels, LevelPlan(2, Some(c)), sub.plan);
      MasksMeanCons(top, c, Apply(levels[1..], sub.plan), 2, ids, truth, nrf);
    } else {
      MeaningOfShallowPush(levels, caps, ids, c, nrf, truth);
    }
  }

  lemma MeaningOfShallowPush(levels: seq<seq<Chunk>>, caps: seq<nat>, ids: nat, c: Chunk, nrf: nat,
                             truth: nat -> Mask)
    requires |levels| == |caps| > 0 && Roomy(caps)
    requires MasksShaped(levels, nrf)
    requires MasksMean(levels, ids, truth, nrf) && Means(c, truth, nrf)
    requires nrf > 0 && ids > 0 ==> c.mask.Some?
    requires |levels[0]| < caps[0] || |levels| == 1
    requires MakePlan(levels, caps, ids, c, nrf).Ready?
    ensures MasksMean(Apply(levels, MakePlan(levels, caps, ids, c, nrf).plan), ids, truth, nrf)
  {
    if |levels[0]| < caps[0] {
      PlanOfRoom(levels, caps, ids, c, nrf);
      MasksMeanCons(levels[0], c, levels[1..], 0, ids, truth, nrf);
      assert levels[0][0..] == levels[0];
    } else {
      assert Apply(levels, MakePlan(levels, caps, ids, c, nrf).plan) == [levels[0][1..] + [c]] + levels[1..];
      MasksMeanCons(levels[0], c, levels[1..], 1, ids, truth, nrf);
    }
  }

  lemma MasksMeanCons(top: seq<Chunk>, c: Chunk, rest: seq<seq<Chunk>>, n: nat, ids: nat, truth: nat -> Mask, nrf: nat)
    requires n <= |top| && LevelMeans(top, ids, truth, nrf)
    requires Means(c, truth, nrf) && (nrf > 0 && ids > 0 ==> c.mask.Some?)
    requires MasksMean(rest, ids + 1, truth, nrf)
    ensures MasksMean([top[n..] + [c]] + rest, ids, truth, nrf)
  {
    assert ([top[n..] + [c]] + rest)[1..] == rest;
  }

  lemma {:induction false} MeaningGivesShape(levels: seq<seq<Chunk>>, ids: nat, truth: nat -> Mask, nrf: nat)
    requires MasksMean(levels, ids, truth, nrf)
    ensures MasksShaped(levels, nrf)
    decreases |levels|
  {
    if levels != [] {
      MeaningGivesShape(levels[1..], ids + 1, truth, nrf);
      forall i | 0 <= i < |levels[0]| ensures ChunkMaskShaped(levels[0][i], nrf) {
        assert Means(levels[0][i], truth, nrf);
      }
    }
  }
}
