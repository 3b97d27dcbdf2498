/**
  The buffered writer of intensity files: samples go through a buffer of one block, or straight to disk when the
  buffer is empty and there is at least a block of them; a file is closed once it has a given number of samples.
  Files are named by the rounded time of their first sample, and opening a file discards a file of the same name.
*/
module StreamWriters {
  import opened Options
  import opened Products

  /** One time sample of every dataset. */
  datatype Sample<V> = Sample(time: real, data: V)

  datatype File<V> = File(name: int, samples: seq<Sample<V>>)

  /**
    The files in the order they were opened, whether the last one is still open, the buffer and how much of it is used.
    `block` samples fit in the buffer, a file is closed when it has `perFile`.
  */
  datatype Writer<V> = Writer(files: seq<File<V>>, isOpen: bool, buffer: seq<Sample<V>>, n: nat, t0: Option<real>,
                              block: nat, perFile: nat)

  /** How a time offset becomes part of a name. */
  type Rounding = real -> int

  predicate Shape<V>(w: Writer<V>) {
    && w.block > 0 && w.perFile > 0 && |w.buffer| == w.block && w.n < w.block
    && (w.isOpen ==> w.files != [] && |Current(w)| < w.perFile)
  }

  /** Samples in the open file. */
  function Current<V>(w: Writer<V>): seq<Sample<V>> {
    if w.isOpen && w.files != [] then w.files[|w.files| - 1].samples else []
  }

  function Concat<V>(files: seq<File<V>>): seq<Sample<V>> {
    if files == [] then [] else Concat(files[..|files| - 1]) + files[|files| - 1].samples
  }

  /** Everything the writer holds, on disk and then in the buffer. */
  function Stored<V>(w: Writer<V>): seq<Sample<V>>
    requires w.n <= |w.buffer|
  {
    Concat(w.files) + w.buffer[..w.n]
  }

  /** The files that survive opening a file of this name. */
  function Others<V>(files: seq<File<V>>, name: int): seq<File<V>> {
    if files == [] then []
    else Others(files[..|files| - 1], name) + if files[|files| - 1].name == name then [] else [files[|files| - 1]]
  }

  function StartTime<V>(w: Writer<V>, first: real): real {
    match w.t0 case None => first case Some(t) => t
  }

  function OpenFile<V>(w: Writer<V>, first: real, round: Rounding): Writer<V> {
    var t0 := StartTime(w, first);
    var name := round(first - t0);
    w.(files := Others(w.files, name) + [File(name, [])], isOpen := true, t0 := Some(t0))
  }

  /** Appends to the open file, and closes it if it is long enough. */
  function AppendOpen<V>(w: Writer<V>, s: seq<Sample<V>>): Writer<V>
    requires w.files != []
  {
    var last := w.files[|w.files| - 1];
    var grown := File(last.name, last.samples + s);
    w.(files := w.files[..|w.files| - 1] + [grown], isOpen := |grown.samples| < w.perFile)
  }

  /** Writes samples; `first` is the time that names a new file. */
  function AppendDisk<V>(w: Writer<V>, first: real, s: seq<Sample<V>>, round: Rounding): Writer<V>
    requires w.isOpen ==> w.files != []
  {
    AppendOpen(if w.isOpen then w else OpenFile(w, first, round), s)
  }

  /** Writes the used part of the buffer; the name of a new file comes from the first slot, used or not. */
  function Flush<V>(w: Writer<V>, round: Rounding): Writer<V>
    requires |w.buffer| == w.block > 0 && w.n <= w.block && (w.isOpen ==> w.files != [])
  {
    AppendDisk(w, w.buffer[0].time, w.buffer[..w.n], round).(n := 0)
  }

  function AppendBuffers<V>(w: Writer<V>, s: seq<Sample<V>>, round: Rounding): Writer<V>
    requires |w.buffer| == w.block > 0 && w.n + |s| <= w.block && (w.isOpen ==> w.files != [])
  {
    var b := w.(buffer := w.buffer[..w.n] + s + w.buffer[w.n + |s|..], n := w.n + |s|);
    if b.n == b.block then Flush(b, round) else b
  }

  /** How many of the remaining samples the next turn of the loop takes. */
  function Take<V>(w: Writer<V>, remaining: nat): (k: nat)
    requires Shape(w)
    ensures remaining > 0 ==> 0 < k <= remaining
  {
    if w.n == 0 && remaining >= w.block then
      BlocksPositive(remaining, w.block);
      Min(remaining - remaining % w.block, w.perFile - |Current(w)|)
    else Min(w.block - w.n, remaining)
  }

  function Min(x: nat, y: nat): nat { if x < y then x else y }

  lemma BlocksPositive(x: nat, n: nat)
    requires n > 0 && x >= n
    ensures 0 < x - x % n <= x
  {
  }

  /** One turn of the loop, with the samples it takes. */
  function Turn<V>(w: Writer<V>, s: seq<Sample<V>>, direct: bool, round: Rounding): Writer<V>
    requires Shape(w) && s != [] && (!direct ==> w.n + |s| <= w.block)
  {
    if direct then AppendDisk(w, s[0].time, s, round) else AppendBuffers(w, s, round)
  }

  /** All turns. */
  function Absorb<V>(w: Writer<V>, s: seq<Sample<V>>, round: Rounding): Writer<V>
    requires Shape(w)
    decreases |s|
  {
    if s == [] then w
    else
      var k := Take(w, |s|);
      var direct := w.n == 0 && |s| >= w.block;
      TurnShape(w, s[..k], direct, round);
      Absorb(Turn(w, s[..k], direct, round), s[k..], round)
  }

  lemma TurnShape<V>(w: Writer<V>, s: seq<Sample<V>>, direct: bool, round: Rounding)
    requires Shape(w) && s != [] && (!direct ==> w.n + |s| <= w.block)
    ensures Shape(Turn(w, s, direct, round))
    ensures Turn(w, s, direct, round).block == w.block && Turn(w, s, direct, round).perFile == w.perFile
  {
  }

  // ------------------------------------------------------------------------------------------------
  // What is conserved

  /** Opening a file of this name would discard samples. */
  predicate Collides<V>(files: seq<File<V>>, name: int) {
    exists k :: 0 <= k < |files| && files[k].name == name && files[k].samples != []
  }

  /** The next write opens a file, and its name is taken by a file with samples. */
  predicate Overwrites<V>(w: Writer<V>, first: real, round: Rounding) {
    !w.isOpen && Collides(w.files, round(first - StartTime(w, first)))
  }

  lemma ConcatPush<V>(files: seq<File<V>>, f: File<V>)
    ensures Concat(files + [f]) == Concat(files) + f.samples
  {
    assert (files + [f])[..|files|] == files;
  }

  lemma {:induction false} OthersKeepAll<V>(files: seq<File<V>>, name: int)
    ensures |Concat(Others(files, name))| <= |Concat(files)|
    ensures Concat(Others(files, name)) == Concat(files) <==> !Collides(files, name)
    ensures |Concat(Others(files, name))| == |Concat(files)| <==> !Collides(files, name)
  {
    if files != [] {
      var front, last := files[..|files| - 1], files[|files| - 1];
      OthersKeepAll(front, name);
      CollidesFront(files, name);
      ConcatPush(Others(front, name), last);
      hide Collides;
      var x, y := Concat(Others(front, name)), Concat(front);
      assert Concat(files) == y + last.samples;
      if last.name != name {
        if x + last.samples == y + last.samples { assert |x| == |y|; }
      } else {
        assert Others(files, name) == Others(front, name);
        if x == y + last.samples { assert |x| == |y| + |last.samples|; }
      }
    }
  }

  lemma CollidesFront<V>(files: seq<File<V>>, name: int)
    requires files != []
    ensures Collides(files, name) <==>
            Collides(files[..|files| - 1], name) || (files[|files| - 1].name == name && files[|files| - 1].samples != [])
  {
    var front := files[..|files| - 1];
    if Collides(front, name) {
      var k :| 0 <= k < |front| && front[k].name == name && front[k].samples != [];
      assert files[k].name == name;
    }
    if Collides(files, name) {
      var k :| 0 <= k < |files| && files[k].name == name && files[k].samples != [];
      if k < |front| { assert front[k].name == name; }
    }
  }

  lemma AppendOpenAdds<V>(w: Writer<V>, s: seq<Sample<V>>)
    requires w.files != []
    ensures Concat(AppendOpen(w, s).files) == Concat(w.files) + s
  {
    var front, last := w.files[..|w.files| - 1], w.files[|w.files| - 1];
    var grown := File(last.name, last.samples + s);
    assert (front + [grown])[..|front|] == front;
    assert Concat(front) + (last.samples + s) == (Concat(front) + last.samples) + s;
  }

  /** A write adds its samples, and loses nothing exactly if it does not overwrite a file with samples. */
  lemma AppendDiskAdds<V>(w: Writer<V>, first: real, s: seq<Sample<V>>, round: Rounding)
    requires w.isOpen ==> w.files != []
    ensures Concat(AppendDisk(w, first, s, round).files) == Concat(w.files) + s <==> !Overwrites(w, first, round)
    ensures |Concat(AppendDisk(w, first, s, round).files)| <= |Concat(w.files)| + |s|
    ensures |Concat(AppendDisk(w, first, s, round).files)| == |Concat(w.files)| + |s| <==> !Overwrites(w, first, round)
  {
    hide Concat, Others, Collides, AppendOpen;
    if w.isOpen {
      AppendOpenAdds(w, s);
    } else {
      var o := OpenFile(w, first, round);
      var name := round(first - StartTime(w, first));
      OthersKeepAll(w.files, name);
      EmptyLast(Others(w.files, name), name);
      AppendOpenAdds(o, s);
      var x, y := Concat(Others(w.files, name)), Concat(w.files);
      assert Concat(AppendDisk(w, first, s, round).files) == x + s;
      if x + s == y + s { assert |x| == |y|; }
    }
  }

  lemma EmptyLast<V>(files: seq<File<V>>, name: int)
    ensures Concat(files + [File(name, [])]) == Concat(files)
  {
    assert (files + [File(name, [])])[..|files|] == files;
  }

  /** Flushing keeps what is stored, exactly if it does not overwrite a file with samples. */
  lemma FlushConserves<V>(w: Writer<V>, round: Rounding)
    requires |w.buffer| == w.block > 0 && w.n <= w.block && (w.isOpen ==> w.files != [])
    ensures Stored(Flush(w, round)) == Stored(w) <==> !Overwrites(w, w.buffer[0].time, round)
    ensures |Stored(Flush(w, round))| <= |Stored(w)|
    ensures |Stored(Flush(w, round))| == |Stored(w)| <==> !Overwrites(w, w.buffer[0].time, round)
  {
    hide AppendDisk, Concat, Overwrites;
    AppendDiskAdds(w, w.buffer[0].time, w.buffer[..w.n], round);
    var f := Flush(w, round);
    assert f.buffer[..0] == [];
    assert Stored(f) == Concat(f.files);
  }

  /** No turn of the loop overwrites a file with samples. */
  predicate Safe<V>(w: Writer<V>, s: seq<Sample<V>>, round: Rounding)
    requires Shape(w)
    decreases |s|
  {
    s == [] ||
    var k := Take(w, |s|);
    var direct := w.n == 0 && |s| >= w.block;
    TurnShape(w, s[..k], direct, round);
    SafeTurn(w, s[..k], direct, round) && Safe(Turn(w, s[..k], direct, round), s[k..], round)
  }

  predicate SafeTurn<V>(w: Writer<V>, s: seq<Sample<V>>, direct: bool, round: Rounding)
    requires Shape(w) && s != [] && (!direct ==> w.n + |s| <= w.block)
  {
    if direct then !Overwrites(w, s[0].time, round)
    else w.n + |s| == w.block ==> !Overwrites(w, if w.n > 0 then w.buffer[0].time else s[0].time, round)
  }

  lemma TurnConserves<V>(w: Writer<V>, s: seq<Sample<V>>, direct: bool, round: Rounding)
    requires Shape(w) && s != [] && (if direct then w.n == 0 else w.n + |s| <= w.block)
    ensures Turn(w, s, direct, round).n <= |Turn(w, s, direct, round).buffer|
    ensures Stored(Turn(w, s, direct, round)) == Stored(w) + s <==> SafeTurn(w, s, direct, round)
    ensures |Stored(Turn(w, s, direct, round))| <= |Stored(w)| + |s|
    ensures |Stored(Turn(w, s, direct, round))| == |Stored(w)| + |s| <==> SafeTurn(w, s, direct, round)
  {
    hide AppendDisk, Concat, Overwrites, Flush;
    TurnShape(w, s, direct, round);
    if direct {
      AppendDiskAdds(w, s[0].time, s, round);
      AppendDiskBuffer(w, s[0].time, s, round);
      assert w.buffer[..0] == [];
      assert Stored(w) + s == Concat(w.files) + s;
    } else {
      var b := w.(buffer := w.buffer[..w.n] + s + w.buffer[w.n + |s|..], n := w.n + |s|);
      assert b.buffer[..b.n] == w.buffer[..w.n] + s;
      assert Stored(b) == Stored(w) + s;
      if b.n == b.block {
        FlushConserves(b, round);
        SameOverwrite(w, b, if w.n > 0 then w.buffer[0].time else s[0].time, round);
        assert b.buffer[0].time == if w.n > 0 then w.buffer[0].time else s[0].time;
      }
    }
  }

  lemma AppendDiskBuffer<V>(w: Writer<V>, first: real, s: seq<Sample<V>>, round: Rounding)
    requires w.isOpen ==> w.files != []
    ensures AppendDisk(w, first, s, round).buffer == w.buffer && AppendDisk(w, first, s, round).n == w.n
  {
  }

  lemma SameOverwrite<V>(w: Writer<V>, b: Writer<V>, first: real, round: Rounding)
    requires w.isOpen == b.isOpen && w.files == b.files && w.t0 == b.t0
    ensures Overwrites(w, first, round) == Overwrites(b, first, round)
  {
  }

  /**
    The files and the buffer hold what was there and then the chunk, exactly if no turn overwrites a file with samples;
    what is lost is never made up for.
  */
  lemma {:induction false} AbsorbConserves<V>(w: Writer<V>, s: seq<Sample<V>>, round: Rounding)
    requires Shape(w)
    ensures Shape(Absorb(w, s, round)) && |Stored(Absorb(w, s, round))| <= |Stored(w)| + |s|
    ensures Safe(w, s, round) ==> Stored(Absorb(w, s, round)) == Stored(w) + s
    ensures |Stored(Absorb(w, s, round))| == |Stored(w)| + |s| ==> Safe(w, s, round)
    decreases |s|
  {
    ShapeFits(w);
    hide Stored, SafeTurn, Turn, Shape, Take;
    if s == [] {
      assert Stored(w) + s == Stored(w);
    } else {
      var k := Take(w, |s|);
      var direct := w.n == 0 && |s| >= w.block;
      TakeFits(w, |s|);
      TurnShape(w, s[..k], direct, round);
      TurnConserves(w, s[..k], direct, round);
      AbsorbConserves(Turn(w, s[..k], direct, round), s[k..], round);
      assert s[..k] + s[k..] == s;
      assert (Stored(w) + s[..k]) + s[k..] == Stored(w) + s;
    }
  }

  lemma ShapeFits<V>(w: Writer<V>)
    requires Shape(w)
    ensures w.n <= |w.buffer|
  {
  }

  lemma TakeFits<V>(w: Writer<V>, remaining: nat)
    requires Shape(w) && remaining > 0
    ensures var k := Take(w, remaining);
            && 0 < k <= remaining
            && (!(w.n == 0 && remaining >= w.block) ==> w.n + k <= w.block)
  {
  }

  // ------------------------------------------------------------------------------------------------
  // File sizes

  /** Full blocks only: every file holds whole blocks, all but the open one hold `perFile`. */
  ghost predicate Aligned<V>(w: Writer<V>) {
    && Shape(w) && Multiple(w.perFile, w.block)
    && (forall k :: 0 <= k < |w.files| && !(w.isOpen && k == |w.files| - 1) ==> |w.files[k].samples| == w.perFile)
    && (w.isOpen ==> Multiple(|Current(w)|, w.block))
  }

  ghost predicate Multiple(x: nat, n: nat) {
    n > 0 && exists q: nat :: x == Times(q, n)
  }

  function Times(q: nat, n: nat): nat {
    if q == 0 then 0 else n + Times(q - 1, n)
  }

  lemma {:induction false} TimesAdds(q: nat, r: nat, n: nat)
    ensures Times(q + r, n) == Times(q, n) + Times(r, n)
  {
    if q > 0 { TimesAdds(q - 1, r, n); }
  }

  lemma {:induction false} TimesOrders(q: nat, r: nat, n: nat)
    requires n > 0
    ensures q < r <==> Times(q, n) < Times(r, n)
    ensures q < r ==> Times(q, n) + n <= Times(r, n)
  {
    if q > 0 && r > 0 { TimesOrders(q - 1, r - 1, n); }
  }

  lemma {:induction false} TimesIsProduct(q: nat, n: nat)
    ensures Times(q, n) == n * q
  {
    if q > 0 {
      TimesIsProduct(q - 1, n);
      assert n * q == n * (q - 1) + n;
    }
  }

  /** What is left after whole blocks have been taken off is whole blocks. */
  lemma WholeBlocks(x: nat, n: nat)
    requires n > 0
    ensures x % n <= x && Multiple(x - x % n, n)
  {
    var q := x / n;
    assert x == n * q + x % n;
    TimesIsProduct(q, n);
    assert x - x % n == Times(q, n);
  }

  lemma DifferenceOfMultiples(x: nat, y: nat, n: nat)
    requires Multiple(x, n) && Multiple(y, n) && y <= x
    ensures Multiple(x - y, n) && (y < x ==> y + n <= x)
  {
    var q: nat :| x == Times(q, n);
    var r: nat :| y == Times(r, n);
    TimesOrders(q, r, n);
    TimesOrders(r, q, n);
    if r <= q {
      TimesAdds(r, q - r, n);
      assert x - y == Times(q - r, n);
    }
  }

  lemma SumOfMultiples(x: nat, y: nat, n: nat)
    requires Multiple(x, n) && Multiple(y, n)
    ensures Multiple(x + y, n)
  {
    var q: nat :| x == Times(q, n);
    var r: nat :| y == Times(r, n);
    TimesAdds(q, r, n);
    assert x + y == Times(q + r, n);
  }

  lemma {:induction false} OthersAreFiles<V>(files: seq<File<V>>, name: int, size: nat)
    requires forall k :: 0 <= k < |files| ==> |files[k].samples| == size
    ensures forall k :: 0 <= k < |Others(files, name)| ==> |Others(files, name)[k].samples| == size
  {
    if files != [] { OthersAreFiles(files[..|files| - 1], name, size); }
  }

  /** Whole blocks that still fit in the current file. */
  lemma AppendAligned<V>(w: Writer<V>, first: real, s: seq<Sample<V>>, round: Rounding)
    requires Aligned(w) && s != [] && Multiple(|s|, w.block) && |Current(w)| + |s| <= w.perFile
    ensures Aligned(AppendDisk(w, first, s, round))
  {
    NoBlocks(w.block);
    if !w.isOpen { OthersAreFiles(w.files, round(first - StartTime(w, first)), w.perFile); }
    SumOfMultiples(|Current(w)|, |s|, w.block);
  }

  lemma NoBlocks(n: nat)
    requires n > 0
    ensures Multiple(0, n) && Multiple(n, n)
  {
    assert Times(0, n) == 0 && Times(1, n) == n + Times(0, n);
  }

  lemma TurnAligned<V>(w: Writer<V>, s: seq<Sample<V>>, total: nat, round: Rounding)
    requires Aligned(w) && 0 < |s| == Take(w, total) && total > 0
    requires !(w.n == 0 && total >= w.block) ==> w.n + |s| <= w.block
    ensures Aligned(Turn(w, s, w.n == 0 && total >= w.block, round))
  {
    hide Times, Multiple;
    NoBlocks(w.block);
    CurrentIsWhole(w);
    DifferenceOfMultiples(w.perFile, |Current(w)|, w.block);
    if w.n == 0 && total >= w.block {
      WholeBlocks(total, w.block);
      AppendAligned(w, s[0].time, s, round);
    } else if w.n + |s| == w.block {
      var b := w.(buffer := w.buffer[..w.n] + s + w.buffer[w.n + |s|..], n := w.n + |s|);
      AppendAlignedFull(w, b, round);
    }
  }

  lemma CurrentIsWhole<V>(w: Writer<V>)
    requires Aligned(w)
    ensures Multiple(|Current(w)|, w.block) && |Current(w)| < w.perFile
  {
    NoBlocks(w.block);
  }

  lemma AppendAlignedFull<V>(w: Writer<V>, b: Writer<V>, round: Rounding)
    requires Aligned(w) && b == w.(buffer := b.buffer, n := w.block) && |b.buffer| == w.block
    requires Multiple(w.block, w.block) && |Current(w)| + w.block <= w.perFile
    ensures Aligned(Flush(b, round))
  {
    hide Multiple;
    var first := b.buffer[0].time;
    AppendAligned(w, first, b.buffer, round);
    assert b.buffer[..b.n] == b.buffer;
    assert AppendDisk(b, first, b.buffer, round) == AppendDisk(w, first, b.buffer, round).(buffer := b.buffer, n := w.block);
  }

  /** Absorbing chunks, with no flush in between, leaves only full files behind the open one. */
  lemma {:induction false} AbsorbAligned<V>(w: Writer<V>, s: seq<Sample<V>>, round: Rounding)
    requires Aligned(w)
    ensures Aligned(Absorb(w, s, round))
    decreases |s|
  {
    hide Multiple, Turn, Take;
    if s != [] {
      var k := Take(w, |s|);
      TakeFits(w, |s|);
      TurnShape(w, s[..k], w.n == 0 && |s| >= w.block, round);
      TurnAligned(w, s[..k], |s|, round);
      AbsorbAligned(Turn(w, s[..k], w.n == 0 && |s| >= w.block, round), s[k..], round);
    }
  }

  // ------------------------------------------------------------------------------------------------
  // Closing down

  /** A new writer; the buffer is not initialized. */
  function NewWriter<V>(buffer: seq<Sample<V>>, perFile: nat): Writer<V> {
    Writer([], false, buffer, 0, None, |buffer|, perFile)
  }

  lemma NewIsAligned<V>(buffer: seq<Sample<V>>, perFile: nat)
    requires |buffer| > 0 && perFile > 0 && Multiple(perFile, |buffer|)
    ensures Aligned(NewWriter(buffer, perFile)) && Stored(NewWriter(buffer, perFile)) == []
  {
  }

  /** One turn of the loop. */
  lemma AbsorbStep<V>(w: Writer<V>, s: seq<Sample<V>>, round: Rounding)
    requires Shape(w) && s != []
    ensures var k, direct := Take(w, |s|), w.n == 0 && |s| >= w.block;
            && 0 < k <= |s| && (!direct ==> w.n + k <= w.block)
            && Shape(Turn(w, s[..k], direct, round))
            && Absorb(w, s, round) == Absorb(Turn(w, s[..k], direct, round), s[k..], round)
  {
    hide Shape, Turn, Take;
    TakeFits(w, |s|);
    TurnShape(w, s[..Take(w, |s|)], w.n == 0 && |s| >= w.block, round);
  }

  /** A chunk that takes a single turn. */
  lemma AbsorbOnce<V>(w: Writer<V>, s: seq<Sample<V>>, direct: bool, round: Rounding)
    requires Shape(w) && s != [] && Take(w, |s|) == |s| && direct == (w.n == 0 && |s| >= w.block)
    ensures (!direct ==> w.n + |s| <= w.block) && Absorb(w, s, round) == Turn(w, s, direct, round)
  {
    hide Shape, Turn, Take;
    AbsorbStep(w, s, round);
    assert s[..|s|] == s && s[|s|..] == [];
  }

  /** The beginning of a block. */
  lemma FirstPart<V>(buffer: seq<Sample<V>>, perFile: nat, a: seq<Sample<V>>, round: Rounding)
    requires a != [] && |a| < |buffer| < perFile
    ensures Shape(NewWriter(buffer, perFile))
    ensures Absorb(NewWriter(buffer, perFile), a, round) == Writer([], false, a + buffer[|a|..], |a|, None, |buffer|, perFile)
  {
    var w := NewWriter(buffer, perFile);
    AbsorbOnce(w, a, false, round);
    assert w.buffer[..0] + a + w.buffer[0 + |a|..] == a + buffer[|a|..];
  }

  /** A first block that went through the buffer, in two parts. */
  lemma FirstBlock<V>(buffer: seq<Sample<V>>, perFile: nat, a: seq<Sample<V>>, b: seq<Sample<V>>, round: Rounding)
    requires a != [] && b != [] && |a| + |b| == |buffer| < perFile
    ensures Shape(NewWriter(buffer, perFile)) && Shape(Absorb(NewWriter(buffer, perFile), a, round))
    ensures Absorb(Absorb(NewWriter(buffer, perFile), a, round), b, round)
            == Writer([File(round(a[0].time - a[0].time), a + b)], true, a + b, 0, Some(a[0].time), |buffer|, perFile)
  {
    FirstPart(buffer, perFile, a, round);
    hide Absorb, AppendDisk;
    var w1 := Writer([], false, a + buffer[|a|..], |a|, None, |buffer|, perFile);
    AbsorbOnce(w1, b, false, round);
    assert w1.buffer[..w1.n] + b + w1.buffer[w1.n + |b|..] == a + b;
    var full := w1.(buffer := a + b, n := |buffer|);
    assert (a + b)[..|buffer|] == a + b;
    OpenFirst(full, a[0].time, a + b, round);
    assert Turn(w1, b, false, round) == Flush(full, round);
  }

  lemma OpenFirst<V>(w: Writer<V>, first: real, s: seq<Sample<V>>, round: Rounding)
    requires w.files == [] && !w.isOpen && w.t0 == None && |s| < w.perFile
    ensures AppendDisk(w, first, s, round)
            == w.(files := [File(round(first - first), s)], isOpen := true, t0 := Some(first))
  {
    assert Others(w.files, round(first - first)) + [File(round(first - first), [])] == [File(round(first - first), [])];
    assert [] + s == s;
  }

  /**
    Closing a writer right after a file has been completed can discard that file: if its first block went through the
    buffer and the rest was written directly, the empty last file gets the name of the full one.
  */
  lemma FinalFlushCanDiscard<V>(buffer: seq<Sample<V>>, perFile: nat, a: seq<Sample<V>>, b: seq<Sample<V>>, c: seq<Sample<V>>, round: Rounding)
    requires a != [] && b != [] && |a| + |b| == |buffer| < perFile
    requires Multiple(perFile, |buffer|) && |c| == perFile - |buffer|
    ensures Shape(NewWriter(buffer, perFile)) && Shape(Absorb(NewWriter(buffer, perFile), a, round))
    ensures var w1 := Absorb(Absorb(NewWriter(buffer, perFile), a, round), b, round);
            && Shape(w1)
            && var w2 := Absorb(w1, c, round);
            && Shape(w2) && Stored(w2) == a + b + c && Stored(Flush(w2, round)) == []
  {
    FirstBlock(buffer, perFile, a, b, round);
    hide Absorb, Multiple;
    var name := round(a[0].time - a[0].time);
    var w1 := Writer([File(name, a + b)], true, a + b, 0, Some(a[0].time), |buffer|, perFile);
    NoBlocks(|buffer|);
    DifferenceOfMultiples(perFile, |buffer|, |buffer|);
    RemainderOfMultiple(|c|, |buffer|);
    AbsorbOnce(w1, c, true, round);
    var w2 := w1.(files := [File(name, a + b + c)], isOpen := false);
    assert AppendDisk(w1, c[0].time, c, round) == w2;
    ConcatOne(File(name, a + b + c));
    assert w2.buffer[..0] == [];
    DiscardOnly(w2, name, round);
  }

  lemma ConcatOne<V>(f: File<V>)
    ensures Concat([f]) == f.samples
  {
    assert [f][..0] == [];
    assert [] + f.samples == f.samples;
  }

  lemma DiscardOnly<V>(w: Writer<V>, name: int, round: Rounding)
    requires |w.files| == 1 && w.files[0].name == name && !w.isOpen && w.n == 0 && |w.buffer| == w.block > 0
    requires w.t0 == Some(w.buffer[0].time) && name == round(w.buffer[0].time - w.buffer[0].time)
    ensures Stored(Flush(w, round)) == []
  {
    assert w.files[..0] == [];
    assert Others(w.files, name) == [];
    var o := OpenFile(w, w.buffer[0].time, round);
    assert o.files == [File(name, [])];
    assert w.buffer[..0] == [];
    ConcatOne<V>(File(name, []));
    assert Flush(w, round).files == [File(name, [])];
    assert Flush(w, round).buffer[..0] == [];
  }

  lemma RemainderOfMultiple(x: nat, n: nat)
    requires Multiple(x, n)
    ensures x % n == 0
  {
    var q: nat :| x == Times(q, n);
    TimesIsProduct(q, n);
    MultipleIsZero(n, q);
  }

  // ------------------------------------------------------------------------------------------------
  // The object

  class StreamWriter<V> {
    const ntimePerFile: nat
    const ntimeBlock: nat
    const round: Rounding
    const buffer: array<Sample<V>>
    var files: seq<File<V>>
    var isOpen: bool
    var ntimeBuffer: nat
    var t0: Option<real>

    constructor (block: nat, perFile: nat, rounding: Rounding, garbage: nat -> Sample<V>)
      requires block > 0 && perFile > 0
      ensures Valid() && fresh(buffer) && ntimeBlock == block && ntimePerFile == perFile
      ensures State() == NewWriter(State().buffer, perFile)
    {
      ntimeBlock, ntimePerFile, round := block, perFile, rounding;
      buffer := new Sample<V>[block](garbage);
      files, isOpen, ntimeBuffer, t0 := [], false, 0, None;
    }

    ghost function State(): Writer<V>
      reads this, buffer
    {
      Writer(files, isOpen, buffer[..], ntimeBuffer, t0, ntimeBlock, ntimePerFile)
    }

    ghost predicate Valid()
      reads this, buffer
    {
      Shape(State()) && buffer.Length == ntimeBlock
    }

    method InitializeFile(firstTime: real)
      requires !isOpen
      modifies this`files, this`isOpen, this`t0
      ensures State() == OpenFile(old(State()), firstTime, round)
    {
      if t0 == None { t0 := Some(firstTime); }
      var name := round(firstTime - t0.value);
      files := RemoveFile(files, name) + [File(name, [])];
      isOpen := true;
    }

    /** Opening a file for writing discards one of the same name. */
    static function RemoveFile(files: seq<File<V>>, name: int): seq<File<V>> { Others(files, name) }

    method AppendDataDisk(data: seq<Sample<V>>, start: nat, stop: nat, firstTime: real)
      requires start <= stop <= |data| && (isOpen ==> files != [])
      modifies this`files, this`isOpen, this`t0
      ensures State() == AppendDisk(old(State()), firstTime, data[start..stop], round)
    {
      if !isOpen { InitializeFile(firstTime); }
      var last := files[|files| - 1];
      var grown := File(last.name, last.samples + data[start..stop]);
      files := files[..|files| - 1] + [grown];
      if |grown.samples| >= ntimePerFile { isOpen := false; }
    }

    /** What the destructor does as well, before it closes the file. */
    method FlushBuffers()
      requires buffer.Length == ntimeBlock > 0 && ntimeBuffer <= ntimeBlock && (isOpen ==> files != [])
      modifies this
      ensures State() == Flush(old(State()), round)
    {
      AppendDataDisk(buffer[..], 0, ntimeBuffer, buffer[0].time);
      ntimeBuffer := 0;
    }

    method AppendDataBuffers(data: seq<Sample<V>>, start: nat, stop: nat)
      requires buffer.Length == ntimeBlock > 0 && (isOpen ==> files != [])
      requires start <= stop <= |data| && ntimeBuffer + (stop - start) <= ntimeBlock
      modifies this, buffer
      ensures State() == AppendBuffers(old(State()), data[start..stop], round)
    {
      ghost var before, s := buffer[..], data[start..stop];
      var ntime := stop - start;
      forall i | ntimeBuffer <= i < ntimeBuffer + ntime { buffer[i] := data[start + (i - ntimeBuffer)]; }
      assert buffer[..] == before[..ntimeBuffer] + s + before[ntimeBuffer + |s|..];
      ntimeBuffer := ntimeBuffer + ntime;
      if ntimeBuffer == ntimeBlock { FlushBuffers(); }
    }

    /** One turn of the loop over the samples of a chunk. */
    method AbsorbTurn(chunk: seq<Sample<V>>, consumed: nat) returns (k: nat)
      requires Valid() && consumed < |chunk|
      modifies this, buffer
      ensures k == Take(old(State()), |chunk| - consumed) && 0 < k <= |chunk| - consumed
      ensures State() == Turn(old(State()), chunk[consumed..consumed + k],
                              old(ntimeBuffer) == 0 && |chunk| - consumed >= ntimeBlock, round)
    {
      hide AppendDisk, AppendBuffers;
      var remaining := |chunk| - consumed;
      TakeFits(State(), remaining);
      if ntimeBuffer == 0 && remaining >= ntimeBlock {
        var toWrite := remaining - remaining % ntimeBlock;
        toWrite := Min(toWrite, ntimePerFile - if isOpen then |files[|files| - 1].samples| else 0);
        AppendDataDisk(chunk, consumed, consumed + toWrite, chunk[consumed].time);
        k := toWrite;
      } else {
        var toBuffer := Min(ntimeBlock - ntimeBuffer, remaining);
        AppendDataBuffers(chunk, consumed, consumed + toBuffer);
        k := toBuffer;
      }
    }

    /** The loop: it ends, and leaves what the specification says. */
    method AbsorbChunk(chunk: seq<Sample<V>>)
      requires Valid()
      modifies this, buffer
      ensures Valid() && State() == Absorb(old(State()), chunk, round)
    {
      hide Shape, Turn, Take;
      var consumed := 0;
      assert chunk[0..] == chunk;
      while consumed < |chunk|
        invariant consumed <= |chunk| && Valid()
        invariant Absorb(State(), chunk[consumed..], round) == Absorb(old(State()), chunk, round)
        decreases |chunk| - consumed
      {
        ghost var w, rest := State(), chunk[consumed..];
        AbsorbStep(w, rest, round);
        var k := AbsorbTurn(chunk, consumed);
        assert rest[..k] == chunk[consumed..consumed + k] && rest[k..] == chunk[consumed + k..];
        consumed := consumed + k;
      }
      assert chunk[consumed..] == [];
    }
  }
}
