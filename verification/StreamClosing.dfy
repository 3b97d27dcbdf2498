/**
  A whole life of the buffered writer: chunks, and the flush with which every writer is closed.  That flush opens a file
  if none is open, named after whatever is in the first slot of the buffer, used or not.
*/
module StreamClosing {
  import opened Options
  import opened Products
  import opened StreamRuns
  import opened StreamWriters

  // ------------------------------------------------------------------------------------------------
  // What is in the buffer

  /** How many samples are in the buffer after `len` more; before, there were `n`. */
  function Left(n: nat, len: nat, block: nat): (r: nat)
    requires block > 0
    ensures r < block && r <= n + len
  {
    RemainderIsLess(n + len, block);
    (n + len) % block
  }

  /** Where, counted from the beginning of the buffer, the first block begins that they leave unfinished. */
  function BlockStart(n: nat, len: nat, block: nat): (p: nat)
    requires block > 0
    ensures p <= n + len
  {
    n + len - Left(n, len, block)
  }

  lemma RemainderIsLess(x: nat, n: nat)
    requires n > 0
    ensures x % n <= x && x % n < n
  {
  }

  lemma LeftShort(n: nat, len: nat, block: nat)
    requires n + len < block
    ensures Left(n, len, block) == n + len && BlockStart(n, len, block) == 0
  {
  }

  lemma LeftDirect(len: nat, k: nat, block: nat)
    requires block > 0 && Multiple(k, block) && k <= len
    ensures Left(0, len - k, block) == Left(0, len, block)
    ensures BlockStart(0, len, block) == k + BlockStart(0, len - k, block)
  {
    var q: nat :| k == Times(q, block);
    TimesIsProduct(q, block);
    QuotientOfSum(len - k, block, q);
  }

  lemma LeftFilled(n: nat, len: nat, k: nat, block: nat)
    requires block > 0 && n + k == block && k <= len
    ensures Left(0, len - k, block) == Left(n, len, block)
    ensures BlockStart(n, len, block) == block + BlockStart(0, len - k, block)
  {
    QuotientOfSum(len - k, block, 1);
  }

  /** The same, counted from the beginning of the data. */
  lemma LeftInAll(before: nat, len: nat, block: nat)
    requires block > 0
    ensures var n := Left(0, before, block);
            && n <= before && Left(n, len, block) == Left(0, before + len, block)
            && BlockStart(0, before + len, block) == BlockStart(n, len, block) + (before - n)
  {
    var n, q := before % block, before / block;
    assert before == block * q + n;
    QuotientOfSum(n + len, block, q);
  }

  lemma DirectTakesBlocks<V>(w: Writer<V>, remaining: nat)
    requires Aligned(w) && w.n == 0 && remaining >= w.block
    ensures Multiple(Take(w, remaining), w.block)
  {
    hide Times;
    CurrentIsWhole(w);
    DifferenceOfMultiples(w.perFile, |Current(w)|, w.block);
    WholeBlocks(remaining, w.block);
  }

  /** The first slot of the buffer after a chunk: the beginning of a new unfinished block, or what was there before. */
  lemma {:induction false} AbsorbSlot<V>(w: Writer<V>, s: seq<Sample<V>>, round: Rounding)
    requires Aligned(w)
    ensures var r, p := Absorb(w, s, round), BlockStart(w.n, |s|, w.block);
            && r.n == Left(w.n, |s|, w.block) && |r.buffer| > 0
            && r.buffer[0] == if w.n <= p < w.n + |s| then s[p - w.n] else w.buffer[0]
    decreases |s|
  {
    hide Multiple, Times, Left, BlockStart, Turn;
    if s == [] {
      LeftShort(w.n, 0, w.block);
    } else {
      var k, direct := Take(w, |s|), w.n == 0 && |s| >= w.block;
      TakeFits(w, |s|);
      TurnAligned(w, s[..k], |s|, round);
      TurnShape(w, s[..k], direct, round);
      AbsorbSlot(Turn(w, s[..k], direct, round), s[k..], round);
      if direct {
        DirectTakesBlocks(w, |s|);
        LeftDirect(|s|, k, w.block);
        DirectSlot(w, s[..k], round);
      } else {
        TurnSlot(w, s[..k], round);
        if w.n + k < w.block {
          LeftShort(w.n, k, w.block);
          LeftShort(w.n + k, 0, w.block);
        } else {
          LeftFilled(w.n, |s|, k, w.block);
        }
      }
    }
  }

  lemma DirectSlot<V>(w: Writer<V>, s: seq<Sample<V>>, round: Rounding)
    requires Shape(w) && s != []
    ensures Turn(w, s, true, round).n == w.n && Turn(w, s, true, round).buffer == w.buffer
  {
    AppendDiskBuffer(w, s[0].time, s, round);
  }

  lemma TurnSlot<V>(w: Writer<V>, s: seq<Sample<V>>, round: Rounding)
    requires Shape(w) && s != [] && w.n + |s| <= w.block
    ensures var t := Turn(w, s, false, round);
            && |t.buffer| > 0 && t.n == (if w.n + |s| == w.block then 0 else w.n + |s|)
            && t.buffer[0] == if w.n == 0 then s[0] else w.buffer[0]
  {
  }

  /** The sample in the first slot of the buffer after these chunks, if it was `first` before. */
  function Slot<V>(first: Sample<V>, ops: seq<Op<V>>, block: nat): Sample<V>
    requires block > 0
  {
    if ops == [] then first
    else
      var before, all := |Data(ops[..|ops| - 1])|, Data(ops);
      var p := BlockStart(0, |all|, block);
      if before <= p < |all| then all[p] else Slot(first, ops[..|ops| - 1], block)
  }

  lemma {:induction false} RunSlot<V>(w: Writer<V>, ops: seq<Op<V>>, round: Rounding)
    requires Aligned(w) && Shape(w) && w.n == 0 && NoFlush(ops)
    ensures var r := Run(w, ops, round);
            r.n == Left(0, |Data(ops)|, w.block) && |r.buffer| > 0 && r.buffer[0] == Slot(w.buffer[0], ops, w.block)
  {
    hide Aligned, Absorb, Left, BlockStart;
    if ops == [] {
      StartsEmpty(w);
    } else {
      var front, s := ops[..|ops| - 1], ops[|ops| - 1].samples;
      RunSlot(w, front, round);
      NoFlushAligned(w, front, round);
      AbsorbSlot(Run(w, front, round), s, round);
      LeftInAll(|Data(front)|, |s|, w.block);
      assert Data(ops) == Data(front) + s;
    }
  }

  lemma StartsEmpty<V>(w: Writer<V>)
    requires Shape(w)
    ensures |w.buffer| > 0 && Left(0, 0, w.block) == 0
  {
    LeftShort(0, 0, w.block);
  }

  // ------------------------------------------------------------------------------------------------
  // The last flush

  /** The name that the last flush gives to a file of its own is not the name of a file. */
  ghost predicate StaleIsFree<V>(data: seq<Sample<V>>, perFile: nat, stale: real, round: Rounding) {
    forall k: nat :: Times(k, perFile) < |data| ==> FreeOf(data, perFile, k, stale, round)
  }

  predicate FreeOf<V>(data: seq<Sample<V>>, perFile: nat, k: nat, stale: real, round: Rounding)
    requires Times(k, perFile) < |data|
  {
    round(stale - data[0].time) != NameAt(data, Times(k, perFile), round)
  }

  /**
    The condition on what is absorbed: the names of all files differ, also of one that the last flush begins; and if
    there is nothing left to flush and no file open, the name made of the first slot of the buffer is not taken.
  */
  ghost predicate KeptOnClosing<V>(data: seq<Sample<V>>, perFile: nat, slot: real, round: Rounding) {
    && DistinctStarts(data, perFile, 1, round)
    && (data != [] && Multiple(|data|, perFile) ==> StaleIsFree(data, perFile, slot, round))
  }

  lemma StartsOfFiles<V>(r: Writer<V>, a: nat, b: nat, round: Rounding)
    requires Aligned(r) && Named(r, round) && Shape(r) && r.n <= |r.buffer| && DistinctNames(r.files) && a < b < |r.files|
    ensures StartsDiffer(Stored(r), r.perFile, a, b, round)
  {
    hide Aligned, Named, Stored, Times;
    OpenedName(r, a, round);
    OpenedName(r, b, round);
  }

  /** Between two multiples there is none. */
  lemma NoMultiple(x: nat, q: nat, n: nat)
    requires n > 0 && Times(q, n) < x < Times(q + 1, n)
    ensures !Multiple(x, n)
  {
    forall c: nat ensures x != Times(c, n) {
      TimesOrders(q, c, n);
      TimesOrders(c, q + 1, n);
    }
  }

  /** A file is open: it takes the rest. */
  lemma CloseOpen<V>(r: Writer<V>, round: Rounding)
    requires Aligned(r) && Named(r, round) && Shape(r) && r.n <= |r.buffer| && DistinctNames(r.files) && r.isOpen
    ensures KeptOnClosing(Stored(r), r.perFile, r.buffer[0].time, round)
  {
    var q, data := |r.files| - 1, Stored(r);
    OpenSize(r, round);
    NoMultiple(|data|, q, r.perFile);
    forall a, b | 0 <= a < b && 1 > 0 && Times(b, r.perFile) + 1 <= |data| ensures StartsDiffer(data, r.perFile, a, b, round) {
      TimesOrders(b, q + 1, r.perFile);
      StartsOfFiles(r, a, b, round);
    }
  }

  lemma OpenSize<V>(r: Writer<V>, round: Rounding)
    requires Aligned(r) && Named(r, round) && Shape(r) && r.n <= |r.buffer| && r.isOpen
    ensures Times(|r.files| - 1, r.perFile) < |Stored(r)| < Times(|r.files|, r.perFile)
  {
    var q := |r.files| - 1;
    FullFiles(r.files[..q], r.perFile);
    assert FileNamed(r, q, round);
    DifferenceOfMultiples(r.perFile, |Current(r)|, r.block);
    assert Times(q + 1, r.perFile) == r.perFile + Times(q, r.perFile);
  }

  /** No file is open: the flush opens one, and its name must be free. */
  lemma NameIsFree<V>(r: Writer<V>, round: Rounding)
    requires Named(r, round) && Aligned(r) && Shape(r) && r.n <= |r.buffer| && !r.isOpen && Stored(r) != []
    ensures Overwrites(r, r.buffer[0].time, round) <==>
            exists k :: 0 <= k < |r.files| && r.files[k].name == round(r.buffer[0].time - Stored(r)[0].time)
  {
    var first := r.buffer[0].time;
    if r.files != [] { FirstIsFirst(r, round); }
    assert StartTime(r, first) == Stored(r)[0].time;
    forall k | 0 <= k < |r.files| ensures r.files[k].samples != [] {
      assert FileNamed(r, k, round);
    }
  }

  /** Samples are left for it. */
  lemma CloseWithRest<V>(r: Writer<V>, round: Rounding)
    requires Aligned(r) && Named(r, round) && Shape(r) && r.n <= |r.buffer| && DistinctNames(r.files) && !r.isOpen && r.n > 0
    ensures !Overwrites(r, r.buffer[0].time, round) <==> KeptOnClosing(Stored(r), r.perFile, r.buffer[0].time, round)
  {
    var q, data, first := |r.files|, Stored(r), r.buffer[0].time;
    FullFiles(r.files, r.perFile);
    assert data[Times(q, r.perFile)] == r.buffer[0];
    AtLeastOne(r.perFile, r.block);
    assert Times(q + 1, r.perFile) == r.perFile + Times(q, r.perFile);
    NoMultiple(|data|, q, r.perFile);
    NameIsFree(r, round);
    var name := NameAt(data, Times(q, r.perFile), round);
    assert name == round(first - data[0].time);
    hide Aligned, Named, Stored, Overwrites, Times, NameAt;
    if Overwrites(r, first, round) {
      var k :| 0 <= k < q && r.files[k].name == name;
      OpenedName(r, k, round);
      assert !StartsDiffer(data, r.perFile, k, q, round);
    } else {
      forall a, b | 0 <= a < b && 1 > 0 && Times(b, r.perFile) + 1 <= |data| ensures StartsDiffer(data, r.perFile, a, b, round) {
        TimesOrders(b, q + 1, r.perFile);
        OpenedName(r, a, round);
        if b < q { StartsOfFiles(r, a, b, round); }
      }
    }
  }

  /** Nothing is left for it: it is empty, and its name means nothing. */
  lemma CloseIdle<V>(r: Writer<V>, round: Rounding)
    requires Aligned(r) && Named(r, round) && Shape(r) && r.n <= |r.buffer| && DistinctNames(r.files) && !r.isOpen && r.n == 0
    ensures !Overwrites(r, r.buffer[0].time, round) <==> KeptOnClosing(Stored(r), r.perFile, r.buffer[0].time, round)
  {
    var q, data, first := |r.files|, Stored(r), r.buffer[0].time;
    FullFiles(r.files, r.perFile);
    assert r.buffer[..0] == [];
    assert |data| == Times(q, r.perFile);
    forall a, b | 0 <= a < b && 1 > 0 && Times(b, r.perFile) + 1 <= |data| ensures StartsDiffer(data, r.perFile, a, b, round) {
      TimesOrders(b, q, r.perFile);
      StartsOfFiles(r, a, b, round);
    }
    if data == [] {
      NoFilesYet(r, round);
    } else {
      NameIsFree(r, round);
      hide Aligned, Named, Stored, Overwrites, Times, NameAt;
      forall k: nat ensures Times(k, r.perFile) < |data| <==> k < q {
        TimesOrders(k, q, r.perFile);
      }
      forall k | 0 <= k < q ensures r.files[k].name == NameAt(data, Times(k, r.perFile), round) {
        OpenedName(r, k, round);
      }
      if Overwrites(r, first, round) {
        var k :| 0 <= k < q && r.files[k].name == round(first - data[0].time);
        assert !FreeOf(data, r.perFile, k, first, round);
      }
    }
  }

  lemma NoFilesYet<V>(r: Writer<V>, round: Rounding)
    requires Named(r, round) && Concat(r.files) == []
    ensures r.files == []
  {
    if r.files != [] { FirstIsFirst(r, round); }
  }

  lemma FinalFlushIff<V>(r: Writer<V>, round: Rounding)
    requires Aligned(r) && Named(r, round) && Shape(r) && r.n <= |r.buffer| && DistinctNames(r.files)
    ensures !Overwrites(r, r.buffer[0].time, round) <==> KeptOnClosing(Stored(r), r.perFile, r.buffer[0].time, round)
  {
    hide KeptOnClosing, Aligned, Named, DistinctNames, Stored;
    if r.isOpen { CloseOpen(r, round); } else if r.n > 0 { CloseWithRest(r, round); } else { CloseIdle(r, round); }
  }

  /** More starts to compare. */
  lemma FinerStarts<V>(data: seq<Sample<V>>, perFile: nat, block: nat, round: Rounding)
    requires DistinctStarts(data, perFile, 1, round)
    ensures DistinctStarts(data, perFile, block, round)
  {
    forall a, b | 0 <= a < b && block > 0 && Times(b, perFile) + block <= |data| ensures StartsDiffer(data, perFile, a, b, round) {
      assert Times(b, perFile) + 1 <= |data|;
    }
  }

  /**
    Chunks, and then the flush that closes the writer: everything that was absorbed is in the files if and only if the
    rounded times at the beginnings of all files differ, and, when the data fill the files exactly, the rounded time of
    the sample in the first slot of the buffer is not that of a beginning of a file.
  */
  lemma FinishedKeepsAllIff<V>(buffer: seq<Sample<V>>, perFile: nat, ops: seq<Op<V>>, round: Rounding)
    requires |buffer| > 0 && perFile > 0 && Multiple(perFile, |buffer|) && NoFlush(ops)
    ensures Shape(NewWriter(buffer, perFile))
    ensures var r := Run(NewWriter(buffer, perFile), ops + [FlushNow], round);
            && r.n == 0
            && (Concat(r.files) == Data(ops) <==>
                KeptOnClosing(Data(ops), perFile, Slot(buffer[0], ops, |buffer|).time, round))
  {
    var w := NewWriter(buffer, perFile);
    NewIsNamed(buffer, perFile, round);
    NewIsAligned(buffer, perFile);
    var r := Run(w, ops, round);
    assert (ops + [FlushNow])[..|ops|] == ops;
    assert Run(w, ops + [FlushNow], round) == Flush(r, round);
    assert Data(ops + [FlushNow]) == Data(ops) + [];
    RunConserves(w, ops, round);
    RunConserves(w, ops + [FlushNow], round);
    FlushedIsOnDisk(r, round);
    NoFlushAligned(w, ops, round);
    RunSlot(w, ops, round);
    ChunksKeepAllIff(buffer, perFile, ops, round);
    hide Aligned, Named, Stored, DistinctNames, Data, Run, Slot, KeptOnClosing, Shape, NewWriter, Flush, DistinctStarts;
    if SafeRun(w, ops, round) {
      SafeRunIsDistinct(w, ops, round);
      FinalFlushIff(r, round);
    } else if KeptOnClosing(Data(ops), perFile, Slot(buffer[0], ops, |buffer|).time, round) {
      KeptIsDistinct(Data(ops), perFile, |buffer|, Slot(buffer[0], ops, |buffer|).time, round);
      assert false;
    }
  }

  lemma KeptIsDistinct<V>(data: seq<Sample<V>>, perFile: nat, block: nat, slot: real, round: Rounding)
    requires KeptOnClosing(data, perFile, slot, round)
    ensures DistinctStarts(data, perFile, block, round)
  {
    FinerStarts(data, perFile, block, round);
  }

  lemma FlushedIsOnDisk<V>(w: Writer<V>, round: Rounding)
    requires Shape(w)
    ensures Flush(w, round).n == 0 && Flush(w, round).n <= |Flush(w, round).buffer|
    ensures Stored(Flush(w, round)) == Concat(Flush(w, round).files)
  {
    var f := Flush(w, round);
    assert f.buffer[..0] == [];
  }
}
