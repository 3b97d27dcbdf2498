/**
  The vectorized passes of bitshuffle_core.c that move whole bytes, and the vectorized shuffle and its inverse: they
  compute the same bit-matrix transpose as the scalar forms.
*/
module BitshufflePasses {
  import opened BitMatrix
  import opened BitshuffleScalar
  import opened BitshuffleSimd
  import opened BitshuffleUnpack

  // ------------------------------------------------------------------------------------------------
  // Storing a register

  /** Byte m of v belongs to row j, column i0+m. */
  predicate RunByte(s: Bytes, elem: nat, i0: nat, j: nat, v: Bytes, m: nat) {
    m < |v| && At(i0 + m, elem, j) < |s| && v[m] == s[At(i0 + m, elem, j)]
  }

  /** v is part of row j, from column i0 on. */
  predicate RunOf(s: Bytes, elem: nat, i0: nat, j: nat, v: Bytes) {
    forall m :: 0 <= m < |v| ==> RunByte(s, elem, i0, j, v, m)
  }

  /** Additionally, n cells of row j, from column i0 on. */
  function Run(done: (nat, nat) -> bool, i0: nat, j: nat, n: nat): (nat, nat) -> bool {
    (i: nat, j': nat) => done(i, j') || (j' == j && i0 <= i < i0 + n)
  }

  /** Consecutive bytes of a row. */
  method StoreRegister(inp: array<byte>, out: array<byte>, size: nat, elem: nat, i0: nat, j: nat, v: Bytes,
                       ghost t0: Bytes, ghost done: (nat, nat) -> bool)
    requires inp != out && i0 + |v| <= size && j < elem
    requires Cells(inp[..], t0, out[..], size, elem, done)
    requires RunOf(inp[..], elem, i0, j, v)
    modifies out
    ensures inp[..] == old(inp[..]) && Cells(inp[..], t0, out[..], size, elem, Run(done, i0, j, |v|))
  {
    hide At, Cells;
    ghost var s := inp[..];
    CellsRenamed(s, t0, out[..], size, elem, done, Run(done, i0, j, 0));
    for m := 0 to |v|
      invariant inp[..] == s && Cells(s, t0, out[..], size, elem, Run(done, i0, j, m))
    {
      assert RunByte(s, elem, i0, j, v, m);
      CellStored(s, t0, out[..], size, elem, i0 + m, j, Run(done, i0, j, m), Run(done, i0, j, m + 1));
      ghost var t := out[..];
      out[At(j, size, i0 + m)] := v[m];
      assert out[..] == t[At(j, size, i0 + m) := s[At(i0 + m, elem, j)]];
    }
  }

  function Below(ii: nat): (nat, nat) -> bool { (i, j) => i < ii }
  function NotBelow(ii: nat): (nat, nat) -> bool { (i, j) => ii <= i }

  /** What the remainder loop adds. */
  lemma CellsJoined(s: Bytes, t0: Bytes, t: Bytes, u: Bytes, size: nat, elem: nat, from: nat)
    requires Cells(s, t0, t, size, elem, Below(from))
    requires Cells(s, t, u, size, elem, NotBelow(from))
    ensures Cells(s, t0, u, size, elem, (i, j) => true)
  {
    forall i, j | 0 <= i < size && 0 <= j < elem ensures Cell(s, t0, u, size, elem, i, j, true) {
      assert Cell(s, t0, t, size, elem, i, j, Below(from)(i, j));
      assert Cell(s, t, u, size, elem, i, j, NotBelow(from)(i, j));
    }
  }

  /** What is left of n after whole steps of 4, 8, 16 or 32. */
  function Rest(n: nat, step: nat): nat {
    if step == 4 then n % 4 else if step == 8 then n % 8 else if step == 16 then n % 16 else n % 32
  }

  /** The loops over registers stop at the last whole one. */
  predicate Whole(ii: nat, step: nat) { Rest(ii, step) == 0 }

  lemma NoSteps(step: nat)
    ensures Whole(0, step)
  {
  }

  lemma WordSized(elem: nat)
    requires elem % 4 == 0
    ensures Whole(elem, 4)
  {
  }

  lemma RowsInOctets(elem: nat)
    ensures Whole(8 * elem, 8)
  {
  }

  lemma StartIsMultiple(ii: nat)
    requires Whole(ii, 16)
    ensures ii % 8 == 0
  {
  }

  lemma Steps4(ii: nat, size: nat)
    requires ii % 4 == 0 && ii <= size
    ensures (ii + 4) % 4 == 0
    ensures size < ii + 4 ==> ii == size - size % 4
  {
  }

  lemma Steps8(ii: nat, size: nat)
    requires ii % 8 == 0 && ii <= size
    ensures (ii + 8) % 8 == 0
    ensures size < ii + 8 ==> ii == size - size % 8
  {
  }

  lemma Steps16(ii: nat, size: nat)
    requires ii % 16 == 0 && ii <= size
    ensures (ii + 16) % 16 == 0
    ensures size < ii + 16 ==> ii == size - size % 16
  {
  }

  lemma Steps32(ii: nat, size: nat)
    requires ii % 32 == 0 && ii <= size
    ensures (ii + 32) % 32 == 0
    ensures size < ii + 32 ==> ii == size - size % 32
  {
  }

  lemma WholeSteps(ii: nat, step: nat, size: nat)
    requires (step == 4 || step == 8 || step == 16 || step == 32) && Whole(ii, step) && ii <= size
    ensures Whole(ii + step, step)
    ensures size < ii + step ==> ii == size - Rest(size, step)
    ensures Whole(size, step) && size < ii + step ==> ii == size
  {
    if step == 4 {
      Steps4(ii, size);
    } else if step == 8 {
      Steps8(ii, size);
    } else if step == 16 {
      Steps16(ii, size);
    } else {
      Steps32(ii, size);
    }
  }

  // ------------------------------------------------------------------------------------------------
  // Bytes within elements of two, four or eight bytes

  /** Elements below ii, and of the next sixteen the bytes below jj. */
  function ElementsReached(ii: nat, jj: nat): (nat, nat) -> bool {
    (i, j) => i < ii || (i < ii + 16 && j < jj)
  }

  /** Sixteen elements. */
  method TransSixteen(inp: array<byte>, out: array<byte>, size: nat, elem: nat, ii: nat, ghost t0: Bytes)
    requires inp != out && inp.Length == At(size, elem, 0) && (elem == 2 || elem == 4 || elem == 8) && ii + 16 <= size
    requires Cells(inp[..], t0, out[..], size, elem, ElementsReached(ii, 0))
    modifies out
    ensures inp[..] == old(inp[..]) && Cells(inp[..], t0, out[..], size, elem, ElementsReached(ii + 16, 0))
  {
    hide At, Cells, Network, LoadFile;
    ghost var s := inp[..];
    SixteenInside(size, elem, ii);
    var r := Network(elem, LoadFile(inp[..], At(ii, elem, 0), elem));
    for jj := 0 to elem
      invariant inp[..] == s && Cells(s, t0, out[..], size, elem, ElementsReached(ii, jj))
    {
      forall m | 0 <= m < 16 ensures RunByte(s, elem, ii, jj, r[jj], m) {
        NetworkTransposes(elem, s, ii, jj, m);
      }
      StoreRegister(inp, out, size, elem, ii, jj, r[jj], t0, ElementsReached(ii, jj));
      CellsRenamed(s, t0, out[..], size, elem, Run(ElementsReached(ii, jj), ii, jj, 16), ElementsReached(ii, jj + 1));
    }
    CellsRenamed(s, t0, out[..], size, elem, ElementsReached(ii, elem), ElementsReached(ii + 16, 0));
  }

  lemma SixteenInside(size: nat, elem: nat, ii: nat)
    requires ii + 16 <= size
    ensures At(ii, elem, 0) + 16 * elem <= At(size, elem, 0)
  {
    hide At;
    AtRows(ii, 16, elem, 0);
    AtIsProduct(16, elem, 0);
    AtRows(ii + 16, size - ii - 16, elem, 0);
  }

  /** Registers while they last, then the scalar loop. */
  method TransByteElemUnpack(inp: array<byte>, out: array<byte>, size: nat, elem: nat) returns (count: int)
    requires inp != out && inp.Length == out.Length == At(size, elem, 0) && (elem == 2 || elem == 4 || elem == 8)
    modifies out
    ensures count == At(size, elem, 0) && inp[..] == old(inp[..]) && BytesTransposed(inp[..], out[..], size, elem)
  {
    hide At, Cells, BytesTransposed, Whole;
    ghost var s, t0 := inp[..], out[..];
    CellsInitially(s, t0, size, elem);
    CellsRenamed(s, t0, out[..], size, elem, (i, j) => false, ElementsReached(0, 0));
    var ii := 0;
    NoSteps(16);
    while ii + 15 < size
      invariant ii <= size && Whole(ii, 16)
      invariant inp[..] == s && Cells(s, t0, out[..], size, elem, ElementsReached(ii, 0))
    {
      TransSixteen(inp, out, size, elem, ii, t0);
      WholeSteps(ii, 16, size);
      ii := ii + 16;
    }
    WholeSteps(ii, 16, size);
    StartIsMultiple(ii);
    ghost var t := out[..];
    CellsRenamed(s, t0, t, size, elem, ElementsReached(ii, 0), Below(ii));
    count := TransByteElemRemainder(inp, out, size, elem, size - size % 16);
    assert inp[..] == s;
    CellsRenamed(s, t, out[..], size, elem, (i, j) => size - size % 16 <= i, NotBelow(ii));
    CellsJoined(s, t0, t, out[..], size, elem, ii);
    AllMoved(s, t0, out[..], size, elem, (i, j) => true);
  }

  // ------------------------------------------------------------------------------------------------
  // Any element size

  /** The typed transpose goes by blocks of eight rows. */
  function BlockReached(ii: nat, jj: nat, kk: nat): (nat, nat) -> bool {
    (i, j) => i < ii || (i < ii + 8 && (j < jj || (j == jj && i < ii + kk)))
  }

  method MoveRow(inp: array<byte>, out: array<byte>, lda: nat, ldb: nat, width: nat, ii: nat, jj: nat,
                 ghost done: (nat, nat) -> bool, ghost after: (nat, nat) -> bool)
    requires inp != out && inp.Length == out.Length == At(At(lda, ldb, 0), width, 0) && ii < lda && jj < ldb
    requires RowsCopied(inp[..], out[..], lda, ldb, width, done)
    requires forall i, j :: 0 <= i < lda && 0 <= j < ldb && (i != ii || j != jj) ==> after(i, j) == done(i, j)
    modifies out
    ensures inp[..] == old(inp[..]) && RowsCopied(inp[..], out[..], lda, ldb, width, after)
  {
    hide RowsCopied;
    ghost var s, t := inp[..], out[..];
    AtArea(lda, ldb);
    AtBound(ii, lda, ldb, jj);
    AtBound(jj, ldb, lda, ii);
    CopyRow(inp, out, At(ii, ldb, jj), At(jj, lda, ii), At(lda, ldb, 0), width);
    forall b | 0 <= b < width ensures RowByteCopied(s, out[..], lda, ldb, width, ii, jj, b) {
      AtBound(At(jj, lda, ii), At(lda, ldb, 0), width, b);
    }
    RowCopyKeeps(s, t, out[..], lda, ldb, width, ii, jj, done, after);
  }

  lemma RowsRenamed(s: Bytes, t: Bytes, lda: nat, ldb: nat, width: nat, a: (nat, nat) -> bool, b: (nat, nat) -> bool)
    requires RowsCopied(s, t, lda, ldb, width, a)
    requires forall i, j :: 0 <= i < lda && 0 <= j < ldb && b(i, j) ==> a(i, j)
    ensures RowsCopied(s, t, lda, ldb, width, b)
  {
  }

  /** Transpose of an lda x ldb array of items of `width` bytes, eight rows at a time and then the others. */
  method TransElemType(inp: array<byte>, out: array<byte>, lda: nat, ldb: nat, width: nat)
    requires inp != out && inp.Length == out.Length == At(At(lda, ldb, 0), width, 0)
    modifies out
    ensures inp[..] == old(inp[..]) && RowsCopied(inp[..], out[..], lda, ldb, width, (i, j) => true)
  {
    ghost var s := inp[..];
    assert RowsCopied(s, out[..], lda, ldb, width, BlockReached(0, 0, 0));
    hide At, RowsCopied;
    var ii := 0;
    while ii + 7 < lda
      invariant ii <= lda && ii % 8 == 0
      invariant inp[..] == s && RowsCopied(s, out[..], lda, ldb, width, BlockReached(ii, 0, 0))
    {
      for jj := 0 to ldb
        invariant inp[..] == s && RowsCopied(s, out[..], lda, ldb, width, BlockReached(ii, jj, 0))
      {
        for kk := 0 to 8
          invariant inp[..] == s && RowsCopied(s, out[..], lda, ldb, width, BlockReached(ii, jj, kk))
        {
          MoveRow(inp, out, lda, ldb, width, ii + kk, jj, BlockReached(ii, jj, kk), BlockReached(ii, jj, kk + 1));
        }
        RowsRenamed(s, out[..], lda, ldb, width, BlockReached(ii, jj, 8), BlockReached(ii, jj + 1, 0));
      }
      RowsRenamed(s, out[..], lda, ldb, width, BlockReached(ii, ldb, 0), BlockReached(ii + 8, 0, 0));
      ii := ii + 8;
    }
    RowsRenamed(s, out[..], lda, ldb, width, BlockReached(ii, 0, 0), RowsReached(ii, 0));
    assert ii == lda - lda % 8;
    ii := lda - lda % 8;
    while ii < lda
      invariant ii <= lda
      invariant inp[..] == s && RowsCopied(s, out[..], lda, ldb, width, RowsReached(ii, 0))
    {
      for jj := 0 to ldb
        invariant inp[..] == s && RowsCopied(s, out[..], lda, ldb, width, RowsReached(ii, jj))
      {
        MoveRow(inp, out, lda, ldb, width, ii, jj, RowsReached(ii, jj), RowsReached(ii, jj + 1));
      }
      RowsRenamed(s, out[..], lda, ldb, width, RowsReached(ii, ldb), RowsReached(ii + 1, 0));
      ii := ii + 1;
    }
    RowsRenamed(s, out[..], lda, ldb, width, RowsReached(lda, 0), (i, j) => true);
  }

  /** Byte w*ch+b of element i, through the three steps of the hierarchical transpose. */
  lemma HierarchicalByte(s: Bytes, t1: Bytes, t2: Bytes, u: Bytes, size: nat, chunks: nat, w: nat, i: nat, ch: nat, b: nat)
    requires RowByteCopied(s, t1, size, chunks, w, i, ch, b)
    requires ByteMoved(t1, t2, At(chunks, size, 0), w, At(ch, size, i), b)
    requires RowByteCopied(t2, u, w, chunks, size, b, ch, i)
    ensures ByteMoved(s, u, size, At(chunks, w, 0), i, At(ch, w, b))
  {
    hide At;
    AtNested(i, chunks, ch, w, b);
    AtNested(b, chunks, ch, size, i);
  }

  /** Splitting elements into words, transposing the bytes of the words, and regrouping transposes the elements. */
  lemma HierarchicalTranspose(s: Bytes, t1: Bytes, t2: Bytes, u: Bytes, size: nat, chunks: nat, w: nat)
    requires |s| == |u| == At(size, At(chunks, w, 0), 0)
    requires RowsCopied(s, t1, size, chunks, w, (i, j) => true)
    requires BytesTransposed(t1, t2, At(chunks, size, 0), w)
    requires RowsCopied(t2, u, w, chunks, size, (i, j) => true)
    ensures BytesTransposed(s, u, size, At(chunks, w, 0))
  {
    hide At;
    var elem := At(chunks, w, 0);
    AtArea(size, elem);
    forall i, j | 0 <= i < size && 0 <= j < elem ensures ByteMoved(s, u, size, elem, i, j) {
      var ch, b := AtCovers(j, chunks, w);
      AtBound(ch, chunks, size, i);
      assert RowCopied(s, t1, size, chunks, w, i, ch);
      assert RowByteCopied(s, t1, size, chunks, w, i, ch, b);
      assert ByteMoved(t1, t2, At(chunks, size, 0), w, At(ch, size, i), b);
      assert RowCopied(t2, u, w, chunks, size, b, ch);
      assert RowByteCopied(t2, u, w, chunks, size, b, ch, i);
      HierarchicalByte(s, t1, t2, u, size, chunks, w, i, ch, b);
    }
  }

  /** The buffer, counted as elements, as words and as rows. */
  lemma WordsArea(size: nat, chunks: nat, w: nat)
    ensures At(size, At(chunks, w, 0), 0) == At(At(size, chunks, 0), w, 0) == At(At(w, chunks, 0), size, 0)
    ensures At(size, At(chunks, w, 0), 0) == At(At(chunks, size, 0), w, 0)
  {
    hide At;
    AtNested(size, chunks, 0, w, 0);
    AtNothing(w);
    AtArea(size, chunks);
    AtNested(w, chunks, 0, size, 0);
    AtNothing(size);
    AtArea(w, At(chunks, size, 0));
  }

  lemma AtNothing(width: nat)
    ensures At(0, width, 0) == 0
  {
  }

  method TransByteHierarchical(inp: array<byte>, out: array<byte>, size: nat, elem: nat, w: nat) returns (count: int)
    requires inp != out && inp.Length == out.Length == At(size, elem, 0) && (w == 4 || w == 8) && elem % w == 0
    modifies out
    ensures count == At(size, elem, 0) && inp[..] == old(inp[..]) && BytesTransposed(inp[..], out[..], size, elem)
  {
    hide At, BytesTransposed, RowsCopied;
    var chunks := elem / w;
    AtIsProduct(chunks, w, 0);
    WordsArea(size, chunks, w);
    ghost var s := inp[..];
    var tmp := new byte[At(size, elem, 0)];
    TransElemType(inp, out, size, chunks, w);
    ghost var t1 := out[..];
    count := TransByteElemUnpack(out, tmp, At(chunks, size, 0), w);
    ghost var t2 := tmp[..];
    var regrouped := TransElem(tmp, out, w, chunks, size);
    assert tmp[..] == t2;
    HierarchicalTranspose(s, t1, t2, out[..], size, chunks, w);
  }

  lemma CopyTransposes(s: Bytes, size: nat)
    requires |s| == At(size, 1, 0)
    ensures BytesTransposed(s, s, size, 1)
  {
    AtArea(size, 1);
    forall i, j | 0 <= i < size && 0 <= j < 1 ensures ByteMoved(s, s, size, 1, i, j) {
      AtIsProduct(i, 1, 0);
      AtIsProduct(size, 1, 0);
    }
  }

  /** Transpose bytes within elements with the best form for the element size. */
  method TransByteElemSse(inp: array<byte>, out: array<byte>, size: nat, elem: nat) returns (count: int)
    requires inp != out && inp.Length == out.Length == At(size, elem, 0)
    modifies out
    ensures count == At(size, elem, 0) && BytesTransposed(inp[..], out[..], size, elem)
  {
    hide At, BytesTransposed;
    if elem == 1 {
      ghost var s := inp[..];
      forall p | 0 <= p < out.Length { out[p] := inp[p]; }
      assert out[..] == s && inp[..] == s;
      CopyTransposes(s, size);
      count := At(size, elem, 0);
    } else if elem == 2 || elem == 4 || elem == 8 {
      count := TransByteElemUnpack(inp, out, size, elem);
    } else if elem % 4 != 0 {
      count := TransByteElemScal(inp, out, size, elem);
    } else if elem % 8 == 0 {
      count := TransByteHierarchical(inp, out, size, elem, 8);
    } else {
      count := TransByteHierarchical(inp, out, size, elem, 4);
    }
  }

  /** The vectorized shuffle, with registers of 8 or 16 lanes, is the scalar one. */
  method TransBitElemSimd(inp: array<byte>, out: array<byte>, size: nat, elem: nat, lanes: nat) returns (count: int)
    requires inp != out && inp.Length == out.Length == At(size, elem, 0) && (lanes == 8 || lanes == 16)
    modifies out
    ensures size % 8 != 0 ==> count == NOT_MULTIPLE_OF_EIGHT && out[..] == old(out[..])
    ensures size % 8 == 0 ==> count == At(size, elem, 0) && out[..] == ShuffleOf(inp[..], size / 8, elem)
  {
    hide At, BytesTransposed, BitsTransposed, RowsTransposed, Shuffled, ShuffleOf;
    if size % 8 != 0 { return NOT_MULTIPLE_OF_EIGHT; }
    BufferArea(size / 8, elem);
    var tmp := new byte[At(size, elem, 0)];
    ghost var s := inp[..];
    count := TransByteElemSse(inp, out, size, elem);
    if count < 0 { return; }
    ghost var t1 := out[..];
    count := TransBitByteSimd(out, tmp, size, elem, lanes);
    if count < 0 { return; }
    ghost var t2 := tmp[..];
    count := TransBitrowEight(tmp, out, size, elem);
    ThreePassesShuffle(s, t1, t2, out[..], size / 8, elem);
    ShuffleOfShuffles(s, size / 8, elem);
    ShuffleIsUnique(s, out[..], ShuffleOf(s, size / 8, elem), size / 8, elem);
  }

  // ------------------------------------------------------------------------------------------------
  // The first pass of the inverse, 128 bits at a time: cell (i, j) is byte j of row i of the input

  /** Bytes jj to jj+width of row ii+x. */
  function LoadRow(s: Bytes, nb: nat, ii: nat, jj: nat, width: nat, x: nat): (v: Bytes)
    requires width > 0 && jj + width <= nb && At(ii + 8, nb, 0) <= |s| && x < 8
    ensures |v| == width
  {
    RowPartInside(nb, ii, jj, width, x);
    s[At(ii + x, nb, jj)..At(ii + x, nb, jj) + width]
  }

  /** Part of eight rows. */
  function LoadRows(s: Bytes, nb: nat, ii: nat, jj: nat, width: nat): (r: seq<Bytes>)
    requires width == 16 || width == 32
    requires jj + width <= nb && At(ii + 8, nb, 0) <= |s|
    ensures File(r, 8, width) && forall x :: 0 <= x < 8 ==> r[x] == LoadRow(s, nb, ii, jj, width, x)
  {
    seq(8, x requires 0 <= x < 8 => LoadRow(s, nb, ii, jj, width, x))
  }

  lemma RowPartInside(nb: nat, ii: nat, jj: nat, width: nat, x: nat)
    requires width > 0 && jj + width <= nb && x < 8
    ensures At(ii + x, nb, jj) + width <= At(ii + 8, nb, 0)
  {
    hide At;
    AtBound(ii + x, ii + 8, nb, jj + (width - 1));
    AtColumn(ii + x, nb, jj, width - 1);
  }

  lemma LoadedRowByte(s: Bytes, nb: nat, ii: nat, jj: nat, width: nat, x: nat, k: nat)
    requires width == 16 || width == 32
    requires jj + width <= nb && At(ii + 8, nb, 0) <= |s| && x < 8 && k < width
    ensures At(ii + x, nb, jj + k) < |s|
    ensures LoadRows(s, nb, ii, jj, width)[x][k] == s[At(ii + x, nb, jj + k)]
  {
    hide At, LoadRows;
    RowPartInside(nb, ii, jj, width, x);
    AtColumn(ii + x, nb, jj, k);
  }

  /** One half of a lane of a register of the network is part of a column. */
  lemma NetworkColumn(s: Bytes, nb: nat, ii: nat, jj: nat, width: nat, q: nat, lane: nat, u: nat)
    requires width == 16 || width == 32
    requires jj + width <= nb && At(ii + 8, nb, 0) <= |s| && q < 8 && u < 2 && 16 * lane + 15 < width
    ensures var v := RowNetwork(LoadRows(s, nb, ii, jj, width), width)[q][16 * lane + 8 * u..16 * lane + 8 * u + 8];
            RunOf(s, nb, ii, jj + 16 * lane + 2 * q + u, v)
  {
    hide At, RowNetwork, LoadRows;
    var j := jj + 16 * lane + 2 * q + u;
    var r := LoadRows(s, nb, ii, jj, width);
    var t := RowNetwork(r, width)[q];
    var v := t[16 * lane + 8 * u..16 * lane + 8 * u + 8];
    forall x | 0 <= x < 8 ensures RunByte(s, nb, ii, j, v, x) {
      RowNetworkTransposes(r, width, q, lane, u, x);
      assert v[x] == t[16 * lane + 8 * u + x];
      LoadedRowByte(s, nb, ii, jj, width, x, 16 * lane + 2 * q + u);
    }
  }

  /** Rows below ii, and of the next eight rows the columns below jj. */
  function GroupReached(ii: nat, jj: nat): (nat, nat) -> bool {
    (i, j) => i < ii || (i < ii + 8 && j < jj)
  }

  /** Of the sixteen columns from jj on, the first `low` even ones and the first `high` odd ones. */
  function HalvesReached(ii: nat, jj: nat, low: nat, high: nat): (nat, nat) -> bool {
    (i, j) => i < ii || (i < ii + 8
                         && (j < jj || (j < jj + 16 && if (j - jj) % 2 == 0 then j < jj + 2 * low else j < jj + 2 * high)))
  }

  /** Eight rows by sixteen columns. */
  method TransRowBlock(inp: array<byte>, out: array<byte>, rows: nat, nb: nat, ii: nat, jj: nat, ghost t0: Bytes)
    requires inp != out && inp.Length == At(rows, nb, 0) && ii + 8 <= rows && jj + 16 <= nb
    requires Cells(inp[..], t0, out[..], rows, nb, GroupReached(ii, jj))
    modifies out
    ensures inp[..] == old(inp[..]) && Cells(inp[..], t0, out[..], rows, nb, GroupReached(ii, jj + 16))
  {
    hide At, Cells, RowNetwork, LoadRows;
    ghost var s := inp[..];
    RowsFit(rows, nb, ii);
    var t := RowNetwork(LoadRows(inp[..], nb, ii, jj, 16), 16);
    CellsRenamed(s, t0, out[..], rows, nb, GroupReached(ii, jj), HalvesReached(ii, jj, 0, 0));
    for q := 0 to 8
      invariant inp[..] == s && Cells(s, t0, out[..], rows, nb, HalvesReached(ii, jj, q, 0))
    {
      NetworkColumn(s, nb, ii, jj, 16, q, 0, 0);
      StoreRegister(inp, out, rows, nb, ii, jj + 2 * q, t[q][0..8], t0, HalvesReached(ii, jj, q, 0));
      CellsRenamed(s, t0, out[..], rows, nb, Run(HalvesReached(ii, jj, q, 0), ii, jj + 2 * q, 8), HalvesReached(ii, jj, q + 1, 0));
    }
    for q := 0 to 8
      invariant inp[..] == s && Cells(s, t0, out[..], rows, nb, HalvesReached(ii, jj, 8, q))
    {
      NetworkColumn(s, nb, ii, jj, 16, q, 0, 1);
      StoreRegister(inp, out, rows, nb, ii, jj + 2 * q + 1, t[q][8..16], t0, HalvesReached(ii, jj, 8, q));
      CellsRenamed(s, t0, out[..], rows, nb, Run(HalvesReached(ii, jj, 8, q), ii, jj + 2 * q + 1, 8), HalvesReached(ii, jj, 8, q + 1));
    }
    CellsRenamed(s, t0, out[..], rows, nb, HalvesReached(ii, jj, 8, 8), GroupReached(ii, jj + 16));
  }

  lemma RowsFit(rows: nat, nb: nat, ii: nat)
    requires ii + 8 <= rows
    ensures At(ii + 8, nb, 0) <= At(rows, nb, 0)
  {
    hide At;
    AtRows(ii + 8, rows - ii - 8, nb, 0);
  }

  /** Rows below ii, of the next eight the columns below jj, and of column jj the first x. */
  function ColumnReached(ii: nat, jj: nat, x: nat): (nat, nat) -> bool {
    (i, j) => i < ii || (i < ii + 8 && (j < jj || (j == jj && i < ii + x)))
  }

  /** The columns that do not fill a register. */
  method TransRowTail(inp: array<byte>, out: array<byte>, rows: nat, nb: nat, ii: nat, ghost t0: Bytes)
    requires inp != out && inp.Length == At(rows, nb, 0) && ii + 8 <= rows
    requires Cells(inp[..], t0, out[..], rows, nb, GroupReached(ii, nb - nb % 16))
    modifies out
    ensures inp[..] == old(inp[..]) && Cells(inp[..], t0, out[..], rows, nb, GroupReached(ii, nb))
  {
    hide At, Cells;
    ghost var s := inp[..];
    var jj := nb - nb % 16;
    while jj < nb
      invariant jj <= nb
      invariant inp[..] == s && Cells(s, t0, out[..], rows, nb, GroupReached(ii, jj))
    {
      CellsRenamed(s, t0, out[..], rows, nb, GroupReached(ii, jj), ColumnReached(ii, jj, 0));
      for x := 0 to 8
        invariant inp[..] == s && Cells(s, t0, out[..], rows, nb, ColumnReached(ii, jj, x))
      {
        CellStored(s, t0, out[..], rows, nb, ii + x, jj, ColumnReached(ii, jj, x), ColumnReached(ii, jj, x + 1));
        out[At(jj, rows, ii + x)] := inp[At(ii + x, nb, jj)];
      }
      CellsRenamed(s, t0, out[..], rows, nb, ColumnReached(ii, jj, 8), GroupReached(ii, jj + 1));
      jj := jj + 1;
    }
  }

  /** Byte b of row 8j+k goes to byte 8j+k of block b, eight rows at a time. */
  method TransByteBitrowSse(inp: array<byte>, out: array<byte>, size: nat, elem: nat) returns (count: int)
    requires inp != out && inp.Length == out.Length == At(size, elem, 0)
    modifies out
    ensures size % 8 != 0 ==> count == NOT_MULTIPLE_OF_EIGHT && out[..] == old(out[..])
    ensures size % 8 == 0 ==> count == At(size, elem, 0) && RowsGathered(inp[..], out[..], size / 8, elem)
  {
    if size % 8 != 0 { return NOT_MULTIPLE_OF_EIGHT; }
    hide At, Cells, RowsGathered, BytesTransposed, Whole;
    var nrows, nb := 8 * elem, size / 8;
    ghost var s, t0 := inp[..], out[..];
    BufferArea(nb, elem);
    CellsInitially(s, t0, nrows, nb);
    CellsRenamed(s, t0, out[..], nrows, nb, (i, j) => false, GroupReached(0, 0));
    var ii := 0;
    NoSteps(8);
    RowsInOctets(elem);
    while ii + 7 < nrows
      invariant ii <= nrows && Whole(ii, 8)
      invariant inp[..] == s && Cells(s, t0, out[..], nrows, nb, GroupReached(ii, 0))
    {
      var jj := 0;
      NoSteps(16);
      while jj + 15 < nb
        invariant jj <= nb && Whole(jj, 16)
        invariant inp[..] == s && Cells(s, t0, out[..], nrows, nb, GroupReached(ii, jj))
      {
        TransRowBlock(inp, out, nrows, nb, ii, jj, t0);
        WholeSteps(jj, 16, nb);
        jj := jj + 16;
      }
      WholeSteps(jj, 16, nb);
      TransRowTail(inp, out, nrows, nb, ii, t0);
      CellsRenamed(s, t0, out[..], nrows, nb, GroupReached(ii, nb), GroupReached(ii + 8, 0));
      WholeSteps(ii, 8, nrows);
      ii := ii + 8;
    }
    WholeSteps(ii, 8, nrows);
    AllMoved(s, t0, out[..], nrows, nb, GroupReached(nrows, 0));
    BytesAreGathered(s, out[..], nb, elem);
    count := At(size, elem, 0);
  }

  // ------------------------------------------------------------------------------------------------
  // The same pass, 256 bits at a time

  predicate Groups(storage: seq<seq<Bytes>>) {
    && |storage| == 4
    && File(storage[0], 8, 32) && File(storage[1], 8, 32) && File(storage[2], 8, 32) && File(storage[3], 8, 32)
  }

  /** The registers that hold the columns of pair mm, from four groups of eight rows. */
  function Quarter(storage: seq<seq<Bytes>>, mm: nat): (y: seq<Bytes>)
    requires Groups(storage) && mm < 8
    ensures File(y, 4, 32)
  {
    [storage[0][mm], storage[1][mm], storage[2][mm], storage[3][mm]]
  }

  /** Group h of eight rows has gone through the network. */
  predicate Stored(storage: seq<seq<Bytes>>, s: Bytes, nb: nat, ii: nat, jj: nat, h: nat)
    requires h < |storage|
  {
    && jj + 32 <= nb && At(ii + 8 * h + 8, nb, 0) <= |s|
    && storage[h] == RowNetwork(LoadRows(s, nb, ii + 8 * h, jj, 32), 32)
  }

  lemma GatheredColumn(storage: seq<seq<Bytes>>, s: Bytes, nb: nat, ii: nat, jj: nat, mm: nat, lane: Digit, u: Digit)
    requires Groups(storage) && mm < 8
    requires forall h :: 0 <= h < 4 ==> Stored(storage, s, nb, ii, jj, h)
    ensures var v := Gather(Quarter(storage, mm))[2 * lane + u];
            RunOf(s, nb, ii, jj + 16 * lane + 2 * mm + u, v)
  {
    hide At, RowNetwork, LoadRows, Gather;
    var v := Gather(Quarter(storage, mm))[2 * lane + u];
    var j := jj + 16 * lane + 2 * mm + u;
    forall m | 0 <= m < 32 ensures RunByte(s, nb, ii, j, v, m) {
      var h, x := m / 8, m % 8;
      assert Stored(storage, s, nb, ii, jj, h);
      GatherAt(Quarter(storage, mm), lane, u, h / 2, h % 2, x);
      assert Quarter(storage, mm)[h] == storage[h][mm];
      NetworkColumn(s, nb, ii + 8 * h, jj, 32, mm, lane, u);
      var w := storage[h][mm][16 * lane + 8 * u..16 * lane + 8 * u + 8];
      assert RunByte(s, nb, ii + 8 * h, j, w, x);
      assert w[x] == storage[h][mm][16 * lane + 8 * u + x];
      assert ii + 8 * h + x == ii + m;
    }
  }

  /** Columns below jj, and of the next 32 columns the rows below ii. */
  function PanelReached(jj: nat, ii: nat): (nat, nat) -> bool {
    (i, j) => j < jj || (j < jj + 32 && i < ii)
  }

  /** Additionally, of the next 32 rows, the first mm pairs of columns of each lane. */
  function PairsReached(jj: nat, ii: nat, mm: nat): (nat, nat) -> bool {
    (i, j) => j < jj || (j < jj + 32 && (i < ii || (i < ii + 32 && (j - jj) % 16 < 2 * mm)))
  }

  /** Thirty-two rows by thirty-two columns. */
  method TransPanelBlock(inp: array<byte>, out: array<byte>, rows: nat, nb: nat, ii: nat, jj: nat, ghost t0: Bytes)
    requires inp != out && inp.Length == At(rows, nb, 0) && ii + 32 <= rows && jj + 32 <= nb
    requires Cells(inp[..], t0, out[..], rows, nb, PanelReached(jj, ii))
    modifies out
    ensures inp[..] == old(inp[..]) && Cells(inp[..], t0, out[..], rows, nb, PanelReached(jj, ii + 32))
  {
    hide At, Cells, RowNetwork, LoadRows, Gather;
    ghost var s := inp[..];
    var storage: seq<seq<Bytes>> := [];
    for hh := 0 to 4
      invariant |storage| == hh && forall h :: 0 <= h < hh ==> File(storage[h], 8, 32)
      invariant forall h :: 0 <= h < hh ==> Stored(storage, s, nb, ii, jj, h)
      invariant inp[..] == s && Cells(s, t0, out[..], rows, nb, PanelReached(jj, ii))
    {
      RowsFit(rows, nb, ii + 8 * hh);
      ghost var before := storage;
      storage := storage + [RowNetwork(LoadRows(inp[..], nb, ii + 8 * hh, jj, 32), 32)];
      forall h | 0 <= h < hh + 1 ensures Stored(storage, s, nb, ii, jj, h) {
        if h < hh { assert Stored(before, s, nb, ii, jj, h); }
      }
    }
    CellsRenamed(s, t0, out[..], rows, nb, PanelReached(jj, ii), PairsReached(jj, ii, 0));
    for mm := 0 to 8
      invariant inp[..] == s && Cells(s, t0, out[..], rows, nb, PairsReached(jj, ii, mm))
    {
      StoreQuarter(inp, out, rows, nb, ii, jj, mm, storage, t0);
    }
    CellsRenamed(s, t0, out[..], rows, nb, PairsReached(jj, ii, 8), PanelReached(jj, ii + 32));
  }

  method StoreQuarter(inp: array<byte>, out: array<byte>, rows: nat, nb: nat, ii: nat, jj: nat, mm: nat,
                      storage: seq<seq<Bytes>>, ghost t0: Bytes)
    requires inp != out && inp.Length == At(rows, nb, 0) && ii + 32 <= rows && jj + 32 <= nb && mm < 8
    requires Groups(storage)
    requires forall h :: 0 <= h < 4 ==> Stored(storage, inp[..], nb, ii, jj, h)
    requires Cells(inp[..], t0, out[..], rows, nb, PairsReached(jj, ii, mm))
    modifies out
    ensures inp[..] == old(inp[..]) && Cells(inp[..], t0, out[..], rows, nb, PairsReached(jj, ii, mm + 1))
  {
    hide At, Cells, Gather, Stored;
    ghost var s := inp[..];
    var t := Gather(Quarter(storage, mm));
    ghost var d0 := PairsReached(jj, ii, mm);
    GatheredColumn(storage, s, nb, ii, jj, mm, 0, 0);
    StoreRegister(inp, out, rows, nb, ii, jj + 2 * mm, t[0], t0, d0);
    ghost var d1 := Run(d0, ii, jj + 2 * mm, 32);
    GatheredColumn(storage, s, nb, ii, jj, mm, 0, 1);
    StoreRegister(inp, out, rows, nb, ii, jj + 2 * mm + 1, t[1], t0, d1);
    ghost var d2 := Run(d1, ii, jj + 2 * mm + 1, 32);
    GatheredColumn(storage, s, nb, ii, jj, mm, 1, 0);
    StoreRegister(inp, out, rows, nb, ii, jj + 16 + 2 * mm, t[2], t0, d2);
    ghost var d3 := Run(d2, ii, jj + 16 + 2 * mm, 32);
    GatheredColumn(storage, s, nb, ii, jj, mm, 1, 1);
    StoreRegister(inp, out, rows, nb, ii, jj + 16 + 2 * mm + 1, t[3], t0, d3);
    ghost var d4 := Run(d3, ii, jj + 16 + 2 * mm + 1, 32);
    CellsRenamed(s, t0, out[..], rows, nb, d4, PairsReached(jj, ii, mm + 1));
  }

  /** Columns below jj0; of the others, rows below ii, and in row ii the columns below jj. */
  function TailColumns(jj0: nat, ii: nat, jj: nat): (nat, nat) -> bool {
    (i, j) => j < jj0 || i < ii || (i == ii && j < jj)
  }

  /** Thirty-two columns at a time, for element sizes that are a multiple of four; other sizes go to the 128-bit form. */
  method TransByteBitrowAvx(inp: array<byte>, out: array<byte>, size: nat, elem: nat) returns (count: int)
    requires inp != out && inp.Length == out.Length == At(size, elem, 0)
    modifies out
    ensures size % 8 != 0 ==> count == NOT_MULTIPLE_OF_EIGHT && out[..] == old(out[..])
    ensures size % 8 == 0 ==> count == At(size, elem, 0) && RowsGathered(inp[..], out[..], size / 8, elem)
  {
    if size % 8 != 0 { return NOT_MULTIPLE_OF_EIGHT; }
    hide At, Cells, RowsGathered, BytesTransposed, Whole;
    var nrows, nb := 8 * elem, size / 8;
    if elem % 4 != 0 {
      count := TransByteBitrowSse(inp, out, size, elem);
      return;
    }
    ghost var s, t0 := inp[..], out[..];
    BufferArea(nb, elem);
    CellsInitially(s, t0, nrows, nb);
    CellsRenamed(s, t0, out[..], nrows, nb, (i, j) => false, PanelReached(0, 0));
    var jj := 0;
    NoSteps(32);
    while jj + 31 < nb
      invariant jj <= nb && Whole(jj, 32)
      invariant inp[..] == s && Cells(s, t0, out[..], nrows, nb, PanelReached(jj, 0))
    {
      var ii := 0;
      NoSteps(4);
      assert Whole(elem, 4) by { WordSized(elem); }
      while ii + 3 < elem
        invariant ii <= elem && Whole(ii, 4)
        invariant inp[..] == s && Cells(s, t0, out[..], nrows, nb, PanelReached(jj, 8 * ii))
      {
        TransPanelBlock(inp, out, nrows, nb, 8 * ii, jj, t0);
        WholeSteps(ii, 4, elem);
        ii := ii + 4;
      }
      WholeSteps(ii, 4, elem);
      CellsRenamed(s, t0, out[..], nrows, nb, PanelReached(jj, 8 * ii), PanelReached(jj + 32, 0));
      WholeSteps(jj, 32, nb);
      jj := jj + 32;
    }
    WholeSteps(jj, 32, nb);
    CellsRenamed(s, t0, out[..], nrows, nb, PanelReached(jj, 0), TailColumns(jj, 0, jj));
    TransPanelTail(inp, out, nrows, nb, jj, t0);
    AllMoved(s, t0, out[..], nrows, nb, TailColumns(jj, nrows, jj));
    BytesAreGathered(s, out[..], nb, elem);
    count := At(size, elem, 0);
  }

  method TransPanelTail(inp: array<byte>, out: array<byte>, rows: nat, nb: nat, from: nat, ghost t0: Bytes)
    requires inp != out && from <= nb
    requires Cells(inp[..], t0, out[..], rows, nb, TailColumns(from, 0, from))
    modifies out
    ensures inp[..] == old(inp[..]) && Cells(inp[..], t0, out[..], rows, nb, TailColumns(from, rows, from))
  {
    hide At, Cells;
    ghost var s := inp[..];
    for ii := 0 to rows
      invariant inp[..] == s && Cells(s, t0, out[..], rows, nb, TailColumns(from, ii, from))
    {
      for jj := from to nb
        invariant inp[..] == s && Cells(s, t0, out[..], rows, nb, TailColumns(from, ii, jj))
      {
        CellStored(s, t0, out[..], rows, nb, ii, jj, TailColumns(from, ii, jj), TailColumns(from, ii, jj + 1));
        out[At(jj, rows, ii)] := inp[At(ii, nb, jj)];
      }
      CellsRenamed(s, t0, out[..], rows, nb, TailColumns(from, ii, nb), TailColumns(from, ii + 1, from));
    }
  }

  /** The vectorized inverse, with registers of 8 or 16 lanes, is the scalar one. */
  method UntransBitElemSimd(inp: array<byte>, out: array<byte>, size: nat, elem: nat, lanes: nat) returns (count: int)
    requires inp != out && inp.Length == out.Length == At(size, elem, 0) && (lanes == 8 || lanes == 16)
    modifies out
    ensures size % 8 != 0 ==> count == NOT_MULTIPLE_OF_EIGHT && out[..] == old(out[..])
    ensures size % 8 == 0 ==> count == At(size, elem, 0) && out[..] == UnshuffleOf(inp[..], size / 8, elem)
  {
    hide At, RowsGathered, OctetsSpread, UnshuffleOf;
    if size % 8 != 0 { return NOT_MULTIPLE_OF_EIGHT; }
    var tmp := new byte[At(size, elem, 0)];
    ghost var t := inp[..];
    if lanes == 16 {
      count := TransByteBitrowAvx(inp, tmp, size, elem);
    } else {
      count := TransByteBitrowSse(inp, tmp, size, elem);
    }
    if count < 0 { return; }
    ghost var u1 := tmp[..];
    count := ShuffleBitEightelemSimd(tmp, out, size, elem, lanes);
    TwoPassesUnshuffle(t, u1, out[..], size / 8, elem);
  }
}
