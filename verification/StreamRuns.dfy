/**
  Whole runs of the buffered writer: chunks and flushes, in any order.  What names the files get, when none of them is
  overwritten, and that then nothing is lost.
*/
module StreamRuns {
  import opened Options
  import opened StreamWriters

  datatype Op<V> = Chunk(samples: seq<Sample<V>>) | FlushNow

  /** Everything that is absorbed. */
  function Data<V>(ops: seq<Op<V>>): seq<Sample<V>> {
    if ops == [] then []
    else
      Data(ops[..|ops| - 1]) + match ops[|ops| - 1] case Chunk(s) => s case FlushNow => []
  }

  function Do<V>(w: Writer<V>, op: Op<V>, round: Rounding): Writer<V>
    requires Shape(w)
  {
    match op
    case Chunk(s) => Absorb(w, s, round)
    case FlushNow => Flush(w, round)
  }

  function Run<V>(w: Writer<V>, ops: seq<Op<V>>, round: Rounding): (r: Writer<V>)
    requires Shape(w)
    ensures Shape(r) && r.block == w.block && r.perFile == w.perFile
  {
    if ops == [] then w
    else
      var v := Run(w, ops[..|ops| - 1], round);
      DoShape(v, ops[|ops| - 1], round);
      Do(v, ops[|ops| - 1], round)
  }

  lemma {:induction false} AbsorbShape<V>(w: Writer<V>, s: seq<Sample<V>>, round: Rounding)
    requires Shape(w)
    ensures var r := Absorb(w, s, round); Shape(r) && r.block == w.block && r.perFile == w.perFile
    decreases |s|
  {
    hide Shape, Turn, Take;
    if s != [] {
      AbsorbStep(w, s, round);
      var k, direct := Take(w, |s|), w.n == 0 && |s| >= w.block;
      TurnShape(w, s[..k], direct, round);
      AbsorbShape(Turn(w, s[..k], direct, round), s[k..], round);
    }
  }

  lemma DoShape<V>(w: Writer<V>, op: Op<V>, round: Rounding)
    requires Shape(w)
    ensures var r := Do(w, op, round); Shape(r) && r.block == w.block && r.perFile == w.perFile
  {
    if op.Chunk? { AbsorbShape(w, op.samples, round); }
  }

  // ------------------------------------------------------------------------------------------------
  // Conservation

  /** No operation overwrites a file with samples. */
  predicate SafeOp<V>(w: Writer<V>, op: Op<V>, round: Rounding)
    requires Shape(w)
  {
    match op
    case Chunk(s) => Safe(w, s, round)
    case FlushNow => !Overwrites(w, w.buffer[0].time, round)
  }

  predicate SafeRun<V>(w: Writer<V>, ops: seq<Op<V>>, round: Rounding)
    requires Shape(w)
  {
    ops == [] || (SafeRun(w, ops[..|ops| - 1], round) && SafeOp(Run(w, ops[..|ops| - 1], round), ops[|ops| - 1], round))
  }

  function Input<V>(op: Op<V>): seq<Sample<V>> {
    match op case Chunk(s) => s case FlushNow => []
  }

  lemma DoConserves<V>(w: Writer<V>, op: Op<V>, round: Rounding)
    requires Shape(w)
    ensures w.n <= |w.buffer| && Do(w, op, round).n <= |Do(w, op, round).buffer|
    ensures |Stored(Do(w, op, round))| <= |Stored(w)| + |Input(op)|
    ensures Stored(Do(w, op, round)) == Stored(w) + Input(op) <==> SafeOp(w, op, round)
    ensures |Stored(Do(w, op, round))| == |Stored(w)| + |Input(op)| <==> SafeOp(w, op, round)
  {
    ShapeFits(w);
    match op
    case Chunk(s) =>
      AbsorbConserves(w, s, round);
      AbsorbShape(w, s, round);
    case FlushNow =>
      FlushConserves(w, round);
      assert Stored(w) + [] == Stored(w);
  }

  /** Files and buffer hold exactly what was absorbed if and only if no operation overwrites a file with samples. */
  lemma {:induction false} RunConserves<V>(w: Writer<V>, ops: seq<Op<V>>, round: Rounding)
    requires Shape(w) && w.n <= |w.buffer| && Stored(w) == []
    ensures var r := Run(w, ops, round);
            && r.n <= |r.buffer| && |Stored(r)| <= |Data(ops)|
            && (Stored(r) == Data(ops) <==> SafeRun(w, ops, round))
            && (|Stored(r)| == |Data(ops)| <==> SafeRun(w, ops, round))
  {
    if ops != [] {
      var front, op := ops[..|ops| - 1], ops[|ops| - 1];
      RunConserves(w, front, round);
      hide Shape, Stored, Do, SafeOp;
      var v := Run(w, front, round);
      DoConserves(v, op, round);
      assert Data(ops) == Data(front) + Input(op);
    }
  }

  // ------------------------------------------------------------------------------------------------
  // Names

  /** The name of a file that begins with sample j of the data. */
  function NameAt<V>(data: seq<Sample<V>>, j: nat, round: Rounding): int
    requires j < |data|
  {
    round(data[j].time - data[0].time)
  }

  /** Files begin at least `perFile` samples apart, so this is enough: rounded times that far apart are different. */
  predicate Spaced<V>(data: seq<Sample<V>>, perFile: nat, round: Rounding) {
    forall i, j :: 0 <= i && i + perFile <= j < |data| ==> NameAt(data, i, round) != NameAt(data, j, round)
  }

  /** Without flushes files begin at multiples of `perFile`, as soon as there is a block for them. */
  ghost predicate DistinctStarts<V>(data: seq<Sample<V>>, perFile: nat, block: nat, round: Rounding) {
    forall a, b :: 0 <= a < b && block > 0 && Times(b, perFile) + block <= |data| ==> StartsDiffer(data, perFile, a, b, round)
  }

  predicate StartsDiffer<V>(data: seq<Sample<V>>, perFile: nat, a: nat, b: nat, round: Rounding) {
    Times(a, perFile) < |data| && Times(b, perFile) < |data|
    && NameAt(data, Times(a, perFile), round) != NameAt(data, Times(b, perFile), round)
  }

  /** Every file is named after its own first sample, relative to the first sample of all. */
  predicate Named<V>(w: Writer<V>, round: Rounding) {
    && (w.files == [] ==> !w.isOpen && w.t0 == None)
    && (forall k :: 0 <= k < |w.files| ==> FileNamed(w, k, round))
    && (w.files != [] ==> w.files[0].samples != [] && w.t0 == Some(w.files[0].samples[0].time))
  }

  predicate FileNamed<V>(w: Writer<V>, k: nat, round: Rounding) {
    && k < |w.files| && w.files[k].samples != [] && w.files[0].samples != []
    && w.files[k].name == round(w.files[k].samples[0].time - w.files[0].samples[0].time)
    && (k < |w.files| - 1 || !w.isOpen ==> |w.files[k].samples| >= w.perFile)
  }

  predicate DistinctNames<V>(files: seq<File<V>>) {
    forall i, j :: 0 <= i < j < |files| ==> files[i].name != files[j].name
  }

  lemma {:induction false} OthersWithout<V>(files: seq<File<V>>, name: int)
    requires forall k :: 0 <= k < |files| ==> files[k].name != name
    ensures Others(files, name) == files
  {
    if files != [] { OthersWithout(files[..|files| - 1], name); }
  }

  /** A write that overwrites nothing keeps the names, and keeps them distinct. */
  lemma AppendNamed<V>(w: Writer<V>, s: seq<Sample<V>>, round: Rounding)
    requires Shape(w) && Named(w, round) && s != [] && !Overwrites(w, s[0].time, round)
    ensures Named(AppendDisk(w, s[0].time, s, round), round)
    ensures DistinctNames(w.files) ==> DistinctNames(AppendDisk(w, s[0].time, s, round).files)
  {
    if w.isOpen {
      GrowNamed(w, s, round);
    } else {
      NewName(w, s[0].time, round);
      var name := round(s[0].time - StartTime(w, s[0].time));
      OthersWithout(w.files, name);
      OpenNamed(w, s, name, round);
    }
  }

  lemma NewName<V>(w: Writer<V>, first: real, round: Rounding)
    requires Named(w, round) && !w.isOpen && !Overwrites(w, first, round)
    ensures forall k :: 0 <= k < |w.files| ==> w.files[k].name != round(first - StartTime(w, first))
  {
    forall k | 0 <= k < |w.files| ensures w.files[k].name != round(first - StartTime(w, first)) {
      assert FileNamed(w, k, round);
    }
  }

  lemma GrowNamed<V>(w: Writer<V>, s: seq<Sample<V>>, round: Rounding)
    requires Shape(w) && Named(w, round) && w.isOpen
    ensures Named(AppendOpen(w, s), round) && (DistinctNames(w.files) ==> DistinctNames(AppendOpen(w, s).files))
  {
    var v := AppendOpen(w, s);
    assert FileNamed(w, |w.files| - 1, round) && FileNamed(w, 0, round);
    forall k | 0 <= k < |v.files| ensures FileNamed(v, k, round) {
      assert FileNamed(w, k, round);
    }
  }

  lemma OpenNamed<V>(w: Writer<V>, s: seq<Sample<V>>, name: int, round: Rounding)
    requires Shape(w) && Named(w, round) && !w.isOpen && s != [] && name == round(s[0].time - StartTime(w, s[0].time))
    requires Others(w.files, name) == w.files && forall k :: 0 <= k < |w.files| ==> w.files[k].name != name
    ensures var v := AppendDisk(w, s[0].time, s, round);
            && v.files == w.files + [File(name, s)] && Named(v, round)
            && (DistinctNames(w.files) ==> DistinctNames(v.files))
  {
    var v := AppendDisk(w, s[0].time, s, round);
    assert [] + s == s;
    assert v.files == w.files + [File(name, s)];
    forall k | 0 <= k < |v.files| ensures FileNamed(v, k, round) {
      if k < |w.files| { assert FileNamed(w, k, round); }
    }
    if w.files != [] { assert FileNamed(w, 0, round); }
  }

  // ------------------------------------------------------------------------------------------------
  // When a new file has a new name

  /** File k begins in the data where the files before it end. */
  lemma {:induction false} FileBegins<V>(files: seq<File<V>>, k: nat)
    requires k < |files| && files[k].samples != []
    ensures |Concat(files[..k])| + |files[k].samples| <= |Concat(files)|
    ensures Concat(files)[|Concat(files[..k])|] == files[k].samples[0]
  {
    var front := files[..|files| - 1];
    if k < |front| {
      FileBegins(front, k);
      assert front[..k] == files[..k];
    }
  }

  lemma FirstIsFirst<V>(w: Writer<V>, round: Rounding)
    requires Named(w, round) && w.files != []
    ensures |Concat(w.files)| > 0 && Concat(w.files)[0] == w.files[0].samples[0]
  {
    assert FileNamed(w, 0, round);
    FileBegins(w.files, 0);
    assert Concat(w.files[..0]) == [];
  }

  /** The data that the files and what is written next hold. */
  ghost predicate Continues<V>(w: Writer<V>, s: seq<Sample<V>>, data: seq<Sample<V>>) {
    s != [] && Concat(w.files) + s <= data
  }

  lemma SpacedIsNew<V>(w: Writer<V>, s: seq<Sample<V>>, data: seq<Sample<V>>, round: Rounding)
    requires Shape(w) && Named(w, round) && Continues(w, s, data) && Spaced(data, w.perFile, round)
    ensures !Overwrites(w, s[0].time, round)
  {
    if !w.isOpen {
      var j := |Concat(w.files)|;
      assert (Concat(w.files) + s)[j] == s[0] && data[j] == s[0];
      if w.files != [] { FirstIsFirst(w, round); }
      forall k | 0 <= k < |w.files| ensures w.files[k].name != round(s[0].time - StartTime(w, s[0].time)) {
        assert FileNamed(w, k, round);
        FileBegins(w.files, k);
        var i := |Concat(w.files[..k])|;
        assert NameAt(data, i, round) == w.files[k].name && NameAt(data, j, round) == round(s[0].time - StartTime(w, s[0].time));
      }
    }
  }

  /** Full files: the k-th begins at k times their size. */
  lemma {:induction false} FullFiles<V>(files: seq<File<V>>, size: nat)
    requires forall k :: 0 <= k < |files| ==> |files[k].samples| == size
    ensures |Concat(files)| == Times(|files|, size)
  {
    if files != [] { FullFiles(files[..|files| - 1], size); }
  }

  lemma DistinctIsNew<V>(w: Writer<V>, s: seq<Sample<V>>, data: seq<Sample<V>>, round: Rounding)
    requires Aligned(w) && Named(w, round) && Continues(w, s, data) && |s| >= w.block
    requires DistinctStarts(data, w.perFile, w.block, round)
    ensures !Overwrites(w, s[0].time, round)
  {
    if !w.isOpen {
      var n := |w.files|;
      FullFiles(w.files, w.perFile);
      var j := |Concat(w.files)|;
      assert (Concat(w.files) + s)[j] == s[0] && data[j] == s[0];
      if w.files != [] { FirstIsFirst(w, round); }
      forall k | 0 <= k < n ensures w.files[k].name != round(s[0].time - StartTime(w, s[0].time)) {
        assert FileNamed(w, k, round);
        FileBegins(w.files, k);
        FullFiles(w.files[..k], w.perFile);
        assert StartsDiffer(data, w.perFile, k, n, round);
      }
    }
  }

  // ------------------------------------------------------------------------------------------------
  // One chunk

  /** The condition on the data, and what it relies on. */
  ghost predicate Good<V>(w: Writer<V>, data: seq<Sample<V>>, aligned: bool, round: Rounding) {
    if aligned then Aligned(w) && DistinctStarts(data, w.perFile, w.block, round) else Spaced(data, w.perFile, round)
  }

  lemma NewFileIsNew<V>(w: Writer<V>, s: seq<Sample<V>>, data: seq<Sample<V>>, aligned: bool, round: Rounding)
    requires Shape(w) && Named(w, round) && Continues(w, s, data) && Good(w, data, aligned, round)
    requires aligned ==> |s| >= w.block
    ensures !Overwrites(w, s[0].time, round)
  {
    if aligned { DistinctIsNew(w, s, data, round); } else { SpacedIsNew(w, s, data, round); }
  }

  /** One turn: nothing is overwritten, and the names stay what they should be. */
  lemma TurnNamed<V>(w: Writer<V>, s: seq<Sample<V>>, direct: bool, data: seq<Sample<V>>, aligned: bool, round: Rounding)
    requires Shape(w) && Named(w, round) && s != [] && w.n <= |w.buffer| && Stored(w) + s <= data && Good(w, data, aligned, round)
    requires if direct then w.n == 0 && (aligned ==> |s| >= w.block) else w.n + |s| <= w.block
    ensures SafeTurn(w, s, direct, round)
  {
    hide Overwrites, Named, Concat, Good;
    if direct {
      assert w.buffer[..0] == [];
      assert Stored(w) == Concat(w.files);
      NewFileIsNew(w, s, data, aligned, round);
    } else if w.n + |s| == w.block {
      var b := w.buffer[..w.n] + s;
      assert Concat(w.files) + b == Stored(w) + s;
      NewFileIsNew(w, b, data, aligned, round);
      assert b[0] == if w.n > 0 then w.buffer[0] else s[0];
    }
  }

  lemma SafeTurnNamed<V>(w: Writer<V>, s: seq<Sample<V>>, direct: bool, round: Rounding)
    requires Shape(w) && Named(w, round) && s != [] && (if direct then w.n == 0 else w.n + |s| <= w.block)
    requires SafeTurn(w, s, direct, round)
    ensures Named(Turn(w, s, direct, round), round)
    ensures DistinctNames(w.files) ==> DistinctNames(Turn(w, s, direct, round).files)
  {
    hide Overwrites, AppendDisk, FileNamed;
    if direct {
      AppendNamed(w, s, round);
    } else {
      var b := w.(buffer := w.buffer[..w.n] + s + w.buffer[w.n + |s|..], n := w.n + |s|);
      if b.n == b.block {
        var all := w.buffer[..w.n] + s;
        assert b.buffer[..b.n] == all && b.buffer[0].time == all[0].time;
        AppendNamed(w, all, round);
        BufferDoesNotMatter(w, b, all, round);
      } else {
        SameFiles(w, b, round);
      }
    }
  }

  lemma SameFiles<V>(w: Writer<V>, b: Writer<V>, round: Rounding)
    requires Named(w, round) && b == w.(buffer := b.buffer, n := b.n)
    ensures Named(b, round)
  {
    forall k | 0 <= k < |b.files| ensures FileNamed(b, k, round) {
      assert FileNamed(w, k, round);
    }
  }

  lemma BufferDoesNotMatter<V>(w: Writer<V>, b: Writer<V>, s: seq<Sample<V>>, round: Rounding)
    requires Shape(w) && b == w.(buffer := b.buffer, n := b.n) && s != []
    requires Named(AppendDisk(w, s[0].time, s, round), round)
    ensures var f := AppendDisk(b, s[0].time, s, round).(n := 0);
            Named(f, round) && f.files == AppendDisk(w, s[0].time, s, round).files
  {
    var a, f := AppendDisk(w, s[0].time, s, round), AppendDisk(b, s[0].time, s, round).(n := 0);
    assert f == a.(buffer := b.buffer, n := 0);
    SameFiles(a, f, round);
  }

  /** A whole chunk. */
  lemma {:induction false} AbsorbNamed<V>(w: Writer<V>, s: seq<Sample<V>>, data: seq<Sample<V>>, aligned: bool, round: Rounding)
    requires Shape(w) && Named(w, round) && w.n <= |w.buffer| && Stored(w) + s <= data && Good(w, data, aligned, round)
    ensures Safe(w, s, round)
    decreases |s|
  {
    if s != [] {
      hide Named, Good, Stored, Turn, Take, SafeTurn;
      var k, direct := Take(w, |s|), w.n == 0 && |s| >= w.block;
      TakeFits(w, |s|);
      if aligned && direct { DirectTakesABlock(w, |s|, data, round); }
      var part, rest := s[..k], s[k..];
      TurnShape(w, part, direct, round);
      assert (Stored(w) + part) + rest == Stored(w) + s;
      PrefixOfPrefix(Stored(w) + part, rest, data);
      TurnNamed(w, part, direct, data, aligned, round);
      SafeTurnNamed(w, part, direct, round);
      TurnConserves(w, part, direct, round);
      GoodAfter(w, s, k, direct, data, aligned, round);
      AbsorbNamed(Turn(w, part, direct, round), rest, data, aligned, round);
    }
  }

  lemma PrefixOfPrefix<X>(a: seq<X>, b: seq<X>, c: seq<X>)
    requires a + b <= c
    ensures a <= c
  {
    assert (a + b)[..|a|] == a;
  }

  lemma GoodAfter<V>(w: Writer<V>, s: seq<Sample<V>>, k: nat, direct: bool, data: seq<Sample<V>>, aligned: bool, round: Rounding)
    requires Shape(w) && Good(w, data, aligned, round) && s != [] && k == Take(w, |s|) && 0 < k <= |s|
    requires direct == (w.n == 0 && |s| >= w.block) && (!direct ==> w.n + k <= w.block)
    ensures Good(Turn(w, s[..k], direct, round), data, aligned, round)
  {
    hide Spaced, DistinctStarts, Turn, Take;
    TurnShape(w, s[..k], direct, round);
    if aligned { TurnAligned(w, s[..k], |s|, round); }
  }

  /** A direct write of an aligned writer is at least a block. */
  lemma DirectTakesABlock<V>(w: Writer<V>, remaining: nat, data: seq<Sample<V>>, round: Rounding)
    requires Shape(w) && Good(w, data, true, round) && w.n == 0 && remaining >= w.block
    ensures Take(w, remaining) >= w.block
  {
    hide Times, DistinctStarts;
    NoBlocks(w.block);
    CurrentIsWhole(w);
    DifferenceOfMultiples(w.perFile, |Current(w)|, w.block);
    WholeBlocks(remaining, w.block);
    AtLeastOne(w.perFile - |Current(w)|, w.block);
    BlocksPositive(remaining, w.block);
    AtLeastOne(remaining - remaining % w.block, w.block);
  }

  lemma AtLeastOne(x: nat, n: nat)
    requires Multiple(x, n) && x > 0
    ensures x >= n
  {
    var q: nat :| x == Times(q, n);
    assert q > 0;
  }

  // ------------------------------------------------------------------------------------------------
  // Runs

  /** A flush with nothing in the buffer and no open file makes an empty file with a name that means nothing. */
  predicate IdleFlush<V>(w: Writer<V>, op: Op<V>) {
    op == FlushNow && w.n == 0 && !w.isOpen
  }

  predicate NoIdleFlush<V>(w: Writer<V>, ops: seq<Op<V>>, round: Rounding)
    requires Shape(w)
  {
    ops == [] || (NoIdleFlush(w, ops[..|ops| - 1], round) && !IdleFlush(Run(w, ops[..|ops| - 1], round), ops[|ops| - 1]))
  }

  predicate NoFlush<V>(ops: seq<Op<V>>) {
    forall k :: 0 <= k < |ops| ==> ops[k].Chunk?
  }

  lemma FlushNamed<V>(w: Writer<V>, round: Rounding)
    requires Shape(w) && Named(w, round) && !(w.n == 0 && !w.isOpen) && !Overwrites(w, w.buffer[0].time, round)
    ensures Named(Flush(w, round), round)
  {
    hide Overwrites;
    if w.n > 0 {
      AppendNamed(w, w.buffer[..w.n], round);
      BufferDoesNotMatter(w, w, w.buffer[..w.n], round);
    } else {
      GrowNamed(w, w.buffer[..0], round);
      SameFiles(AppendOpen(w, w.buffer[..0]), Flush(w, round), round);
    }
  }

  lemma FlushIsSafe<V>(w: Writer<V>, data: seq<Sample<V>>, round: Rounding)
    requires Shape(w) && Named(w, round) && !(w.n == 0 && !w.isOpen) && w.n <= |w.buffer| && Stored(w) <= data
    requires Spaced(data, w.perFile, round)
    ensures !Overwrites(w, w.buffer[0].time, round)
  {
    hide Named, Spaced;
    if w.n > 0 {
      SpacedIsNew(w, w.buffer[..w.n], data, round);
    }
  }

  lemma {:induction false} SafeChunkNamed<V>(w: Writer<V>, s: seq<Sample<V>>, round: Rounding)
    requires Shape(w) && Named(w, round) && Safe(w, s, round)
    ensures Named(Absorb(w, s, round), round)
    ensures DistinctNames(w.files) ==> DistinctNames(Absorb(w, s, round).files)
    decreases |s|
  {
    if s != [] {
      hide Named, Turn, Take, SafeTurn, DistinctNames;
      var k, direct := Take(w, |s|), w.n == 0 && |s| >= w.block;
      TakeFits(w, |s|);
      TurnShape(w, s[..k], direct, round);
      SafeTurnNamed(w, s[..k], direct, round);
      SafeChunkNamed(Turn(w, s[..k], direct, round), s[k..], round);
    }
  }

  lemma NewIsNamed<V>(buffer: seq<Sample<V>>, perFile: nat, round: Rounding)
    requires |buffer| > 0 && perFile > 0
    ensures var w := NewWriter(buffer, perFile);
            Shape(w) && Named(w, round) && w.n <= |w.buffer| && Stored(w) == [] && DistinctNames(w.files)
  {
  }

  lemma DataPrefix<V>(ops: seq<Op<V>>)
    requires ops != []
    ensures Data(ops) == Data(ops[..|ops| - 1]) + Input(ops[|ops| - 1])
  {
  }

  lemma SpacedPrefix<V>(a: seq<Sample<V>>, b: seq<Sample<V>>, perFile: nat, round: Rounding)
    requires Spaced(a + b, perFile, round)
    ensures Spaced(a, perFile, round)
  {
    forall i, j | 0 <= i && i + perFile <= j < |a| ensures NameAt(a, i, round) != NameAt(a, j, round) {
      assert NameAt(a + b, i, round) != NameAt(a + b, j, round);
    }
  }

  /**
    Whatever is absorbed and flushed, with no flush of an idle writer: if times that are a file apart have different
    rounded offsets, then nothing is lost, and every file is named after its first sample.
  */
  lemma {:induction false} SpacedRunKeepsAll<V>(buffer: seq<Sample<V>>, perFile: nat, ops: seq<Op<V>>, round: Rounding)
    requires |buffer| > 0 && perFile > 0 && Shape(NewWriter(buffer, perFile))
    requires NoIdleFlush(NewWriter(buffer, perFile), ops, round) && Spaced(Data(ops), perFile, round)
    ensures var r := Run(NewWriter(buffer, perFile), ops, round);
            r.n <= |r.buffer| && Stored(r) == Data(ops) && Named(r, round)
  {
    var w := NewWriter(buffer, perFile);
    NewIsNamed(buffer, perFile, round);
    if ops != [] {
      var front, op := ops[..|ops| - 1], ops[|ops| - 1];
      DataPrefix(ops);
      SpacedPrefix(Data(front), Input(op), perFile, round);
      SpacedRunKeepsAll(buffer, perFile, front, round);
      var v := Run(w, front, round);
      hide Named, Stored, Spaced, Shape, NewWriter, Data;
      SpacedOp(v, op, Data(ops), round);
    }
  }

  lemma SpacedOp<V>(v: Writer<V>, op: Op<V>, data: seq<Sample<V>>, round: Rounding)
    requires Shape(v) && Named(v, round) && v.n <= |v.buffer| && Stored(v) + Input(op) == data && Spaced(data, v.perFile, round)
    requires !IdleFlush(v, op)
    ensures var r := Do(v, op, round); r.n <= |r.buffer| && Stored(r) == data && Named(r, round)
  {
    hide Named, Stored, Spaced;
    DoConserves(v, op, round);
    match op
    case Chunk(s) =>
      AbsorbNamed(v, s, data, false, round);
      SafeChunkNamed(v, s, round);
    case FlushNow =>
      assert Stored(v) + [] == Stored(v);
      FlushIsSafe(v, data, round);
      FlushNamed(v, round);
  }

  lemma {:induction false} NoFlushAligned<V>(w: Writer<V>, ops: seq<Op<V>>, round: Rounding)
    requires Aligned(w) && Shape(w) && NoFlush(ops)
    ensures Aligned(Run(w, ops, round))
  {
    hide Aligned;
    if ops != [] {
      NoFlushAligned(w, ops[..|ops| - 1], round);
      AbsorbAligned(Run(w, ops[..|ops| - 1], round), ops[|ops| - 1].samples, round);
    }
  }

  lemma DistinctPrefix<V>(a: seq<Sample<V>>, b: seq<Sample<V>>, perFile: nat, block: nat, round: Rounding)
    requires DistinctStarts(a + b, perFile, block, round) && perFile > 0
    ensures DistinctStarts(a, perFile, block, round)
  {
    forall i, j | 0 <= i < j && block > 0 && Times(j, perFile) + block <= |a| ensures StartsDiffer(a, perFile, i, j, round) {
      assert StartsDiffer(a + b, perFile, i, j, round);
      TimesOrders(i, j, perFile);
    }
  }

  /** Without flushes: distinct names at the file boundaries are enough. */
  lemma {:induction false} DistinctRunKeepsAll<V>(w: Writer<V>, ops: seq<Op<V>>, round: Rounding)
    requires Aligned(w) && Shape(w) && Named(w, round) && w.n <= |w.buffer| && Stored(w) == [] && NoFlush(ops)
    requires DistinctStarts(Data(ops), w.perFile, w.block, round)
    ensures SafeRun(w, ops, round)
    ensures var r := Run(w, ops, round); Named(r, round) && r.n <= |r.buffer| && Stored(r) == Data(ops)
  {
    if ops != [] {
      var front, op := ops[..|ops| - 1], ops[|ops| - 1];
      DataPrefix(ops);
      DistinctPrefix(Data(front), Input(op), w.perFile, w.block, round);
      DistinctRunKeepsAll(w, front, round);
      NoFlushAligned(w, front, round);
      var v := Run(w, front, round);
      hide Named, Stored, DistinctStarts, Aligned, Data;
      DistinctOp(v, op.samples, Data(ops), round);
      DoConserves(v, op, round);
    } else {
      assert Stored(w) == Data(ops);
    }
  }

  lemma DistinctOp<V>(v: Writer<V>, s: seq<Sample<V>>, data: seq<Sample<V>>, round: Rounding)
    requires Aligned(v) && Shape(v) && Named(v, round) && v.n <= |v.buffer| && Stored(v) + s == data
    requires DistinctStarts(data, v.perFile, v.block, round)
    ensures Safe(v, s, round) && Named(Absorb(v, s, round), round)
  {
    hide Named, Stored, DistinctStarts, Aligned;
    AbsorbNamed(v, s, data, true, round);
    SafeChunkNamed(v, s, round);
  }

  /** Conversely, if nothing is overwritten, the names are distinct. */
  lemma {:induction false} SafeRunIsDistinct<V>(w: Writer<V>, ops: seq<Op<V>>, round: Rounding)
    requires Shape(w) && Named(w, round) && DistinctNames(w.files) && NoFlush(ops) && SafeRun(w, ops, round)
    ensures var r := Run(w, ops, round); Named(r, round) && DistinctNames(r.files)
  {
    hide Named, DistinctNames;
    if ops != [] {
      SafeRunIsDistinct(w, ops[..|ops| - 1], round);
      SafeChunkNamed(Run(w, ops[..|ops| - 1], round), ops[|ops| - 1].samples, round);
    }
  }

  /** A file that has room for a block has been opened. */
  lemma OpenedFile<V>(r: Writer<V>, k: nat, round: Rounding)
    requires Aligned(r) && Named(r, round) && Shape(r) && r.n <= |r.buffer| && Times(k, r.perFile) + r.block <= |Stored(r)|
    ensures k < |r.files|
  {
    AlignedSize(r);
    TimesOrders(|r.files|, k, r.perFile);
  }

  lemma AlignedSize<V>(r: Writer<V>)
    requires Aligned(r) && Shape(r)
    ensures |Concat(r.files)| <= Times(|r.files|, r.perFile)
  {
    if r.isOpen {
      FullFiles(r.files[..|r.files| - 1], r.perFile);
    } else {
      FullFiles(r.files, r.perFile);
    }
  }

  /** And it is named after its first sample. */
  lemma OpenedName<V>(r: Writer<V>, k: nat, round: Rounding)
    requires Aligned(r) && Named(r, round) && Shape(r) && r.n <= |r.buffer| && k < |r.files|
    ensures Times(k, r.perFile) < |Stored(r)| && r.files[k].name == NameAt(Stored(r), Times(k, r.perFile), round)
  {
    assert FileNamed(r, k, round);
    FileBegins(r.files, k);
    FullFiles(r.files[..k], r.perFile);
    FirstIsFirst(r, round);
    var c := Concat(r.files);
    assert Stored(r)[0] == c[0] && Stored(r)[Times(k, r.perFile)] == c[Times(k, r.perFile)];
  }

  /**
    Chunks only: what was absorbed is all there if and only if the rounded times at the beginnings of the files are
    different; and then every file but the open one holds exactly `perFile` samples.
  */
  lemma ChunksKeepAllIff<V>(buffer: seq<Sample<V>>, perFile: nat, ops: seq<Op<V>>, round: Rounding)
    requires |buffer| > 0 && perFile > 0 && Multiple(perFile, |buffer|) && NoFlush(ops)
    ensures Shape(NewWriter(buffer, perFile))
    ensures var r := Run(NewWriter(buffer, perFile), ops, round);
            && r.n <= |r.buffer| && Aligned(r)
            && (Stored(r) == Data(ops) <==> DistinctStarts(Data(ops), perFile, |buffer|, round))
  {
    var w := NewWriter(buffer, perFile);
    NewIsNamed(buffer, perFile, round);
    NewIsAligned(buffer, perFile);
    NoFlushAligned(w, ops, round);
    RunConserves(w, ops, round);
    var r := Run(w, ops, round);
    hide Aligned, Named, Stored, DistinctNames, Data, Run, SafeRun;
    if Stored(r) == Data(ops) {
      SafeRunIsDistinct(w, ops, round);
      DistinctFilesDifferInStart(r, round);
    } else if DistinctStarts(Data(ops), perFile, |buffer|, round) {
      DistinctRunKeepsAll(w, ops, round);
      assert false;
    }
  }

  lemma DistinctFilesDifferInStart<V>(r: Writer<V>, round: Rounding)
    requires Aligned(r) && Named(r, round) && Shape(r) && r.n <= |r.buffer| && DistinctNames(r.files)
    ensures DistinctStarts(Stored(r), r.perFile, r.block, round)
  {
    hide Aligned, Named, Stored, Times;
    forall a, b | 0 <= a < b && r.block > 0 && Times(b, r.perFile) + r.block <= |Stored(r)|
      ensures StartsDiffer(Stored(r), r.perFile, a, b, round)
    {
      OpenedFile(r, b, round);
      OpenedName(r, a, round);
      OpenedName(r, b, round);
    }
  }

  /** It can fail: data for more than one file, whose second file begins at a time that rounds like that of the first. */
  lemma EqualTimesAreLost<V>(buffer: seq<Sample<V>>, perFile: nat, s: seq<Sample<V>>, round: Rounding)
    requires |buffer| > 0 && perFile > 0 && Multiple(perFile, |buffer|)
    requires |s| >= perFile + |buffer| && NameAt(s, perFile, round) == NameAt(s, 0, round)
    ensures var w, ops := NewWriter(buffer, perFile), [Chunk(s)];
            && Shape(w) && var r := Run(w, ops, round);
            && r.n <= |r.buffer| && Data(ops) == s && |Stored(r)| < |s|
  {
    var ops: seq<Op<V>> := [Chunk(s)];
    NewIsNamed(buffer, perFile, round);
    ChunksKeepAllIff(buffer, perFile, ops, round);
    RunConserves(NewWriter(buffer, perFile), ops, round);
    OnlyChunk(s);
    assert Times(0, perFile) == 0 && Times(1, perFile) == perFile + Times(0, perFile);
    assert !StartsDiffer(s, perFile, 0, 1, round);
  }

  lemma OnlyChunk<V>(s: seq<Sample<V>>)
    ensures Data([Chunk(s)]) == s
  {
    var ops: seq<Op<V>> := [Chunk(s)];
    assert ops[..0] == [];
    assert Data(ops) == Data([]) + s == s;
  }
}
