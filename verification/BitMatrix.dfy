/**
  Bits, bytes and flat two-dimensional indices, and what the passes of bitshuffle mean: each pass is a relation
  between an input and an output buffer, and the relations compose to the transpose of a bit matrix and its inverse.
*/
module BitMatrix {

  type byte = bv8

  // ------------------------------------------------------------------------------------------------
  // Bits of a byte

  predicate Bit(b: byte, k: nat)
    requires k < 8
  {
    if k == 0 then b & 1 != 0 else if k == 1 then b & 2 != 0 else if k == 2 then b & 4 != 0 else if k == 3 then b & 8 != 0
    else if k == 4 then b & 16 != 0 else if k == 5 then b & 32 != 0 else if k == 6 then b & 64 != 0 else b & 128 != 0
  }

  predicate SameBits(a: byte, b: byte) {
    forall k :: 0 <= k < 8 ==> Bit(a, k) == Bit(b, k)
  }

  lemma BitsAreTheByte(a: byte, b: byte)
    requires SameBits(a, b)
    ensures a == b
  {
    assert Bit(a, 0) == Bit(b, 0) && Bit(a, 1) == Bit(b, 1) && Bit(a, 2) == Bit(b, 2) && Bit(a, 3) == Bit(b, 3);
    assert Bit(a, 4) == Bit(b, 4) && Bit(a, 5) == Bit(b, 5) && Bit(a, 6) == Bit(b, 6) && Bit(a, 7) == Bit(b, 7);
    assert a & 1 == b & 1 && a & 2 == b & 2 && a & 4 == b & 4 && a & 8 == b & 8;
    assert a & 16 == b & 16 && a & 32 == b & 32 && a & 64 == b & 64 && a & 128 == b & 128;
  }

  /** Eight bits as a byte. */
  function Pack(b0: bool, b1: bool, b2: bool, b3: bool, b4: bool, b5: bool, b6: bool, b7: bool): byte {
    (if b0 then 1 else 0) | (if b1 then 2 else 0) | (if b2 then 4 else 0) | (if b3 then 8 else 0)
    | (if b4 then 16 else 0) | (if b5 then 32 else 0) | (if b6 then 64 else 0) | (if b7 then 128 else 0)
  }

  lemma PackBits(b0: bool, b1: bool, b2: bool, b3: bool, b4: bool, b5: bool, b6: bool, b7: bool)
    ensures var y := Pack(b0, b1, b2, b3, b4, b5, b6, b7);
            && (y & 1 != 0) == b0 && (y & 2 != 0) == b1 && (y & 4 != 0) == b2 && (y & 8 != 0) == b3
            && (y & 16 != 0) == b4 && (y & 32 != 0) == b5 && (y & 64 != 0) == b6 && (y & 128 != 0) == b7
  {
  }

  lemma PackedBit(b0: bool, b1: bool, b2: bool, b3: bool, b4: bool, b5: bool, b6: bool, b7: bool, c: nat)
    requires c < 8
    ensures Bit(Pack(b0, b1, b2, b3, b4, b5, b6, b7), c) == [b0, b1, b2, b3, b4, b5, b6, b7][c]
  {
    hide Pack;
    PackBits(b0, b1, b2, b3, b4, b5, b6, b7);
    match c case 0 => case 1 => case 2 => case 3 => case 4 => case 5 => case 6 => case _ =>
  }

  // ------------------------------------------------------------------------------------------------
  // Flat indices

  /** Where row `row`, column `col` of a matrix of the given width is stored. */
  function At(row: nat, width: nat, col: nat): nat {
    if row == 0 then col else width + At(row - 1, width, col)
  }

  lemma {:induction false} AtIsProduct(row: nat, width: nat, col: nat)
    ensures At(row, width, col) == row * width + col
  {
    if row > 0 {
      AtIsProduct(row - 1, width, col);
      assert row * width == (row - 1) * width + width;
    }
  }

  lemma {:induction false} AtColumn(row: nat, width: nat, a: nat, b: nat)
    ensures At(row, width, a + b) == At(row, width, a) + b
  {
    if row > 0 { AtColumn(row - 1, width, a, b); }
  }

  lemma {:induction false} AtRows(a: nat, b: nat, width: nat, col: nat)
    ensures At(a + b, width, col) == At(a, width, 0) + At(b, width, col)
  {
    if a > 0 { AtRows(a - 1, b, width, col); }
  }

  lemma {:induction false} AtBound(row: nat, rows: nat, width: nat, col: nat)
    requires row < rows && col < width
    ensures At(row, width, col) < At(rows, width, 0)
  {
    AtRows(row, rows - row, width, 0);
    AtColumn(row, width, 0, col);
    assert At(rows - row, width, 0) >= width;
  }

  lemma {:induction false} AtInjective(r: nat, c: nat, r': nat, c': nat, width: nat)
    requires c < width && c' < width && At(r, width, c) == At(r', width, c')
    ensures r == r' && c == c'
  {
    if r > 0 && r' > 0 { AtInjective(r - 1, c, r' - 1, c', width); }
  }

  /** Every position is some row and column. */
  lemma {:induction false} AtCovers(p: nat, rows: nat, width: nat) returns (row: nat, col: nat)
    requires p < At(rows, width, 0)
    ensures row < rows && col < width && p == At(row, width, col)
  {
    if p < width {
      row, col := 0, p;
    } else {
      row, col := AtCovers(p - width, rows - 1, width);
      row := row + 1;
    }
  }

  /** A matrix of rows of rows. */
  lemma {:induction false} AtNested(i: nat, n: nat, j: nat, width: nat, col: nat)
    ensures At(i, At(n, width, 0), At(j, width, col)) == At(At(i, n, j), width, col)
  {
    if i > 0 {
      AtNested(i - 1, n, j, width, col);
      AtRows(n, At(i - 1, n, j), width, col);
    }
  }

  /** Eight times an index, plus an offset. */
  lemma {:induction false} AtTimesEight(row: nat, width: nat, col: nat, c: nat)
    ensures 8 * At(row, width, col) + c == At(row, 8 * width, 8 * col + c)
  {
    if row > 0 { AtTimesEight(row - 1, width, col, c); }
  }

  lemma {:induction false} AtEight(row: nat, col: nat)
    ensures At(row, 8, col) == 8 * row + col
  {
    if row > 0 { AtEight(row - 1, col); }
  }

  /** The area does not depend on which side is counted first. */
  lemma AtArea(rows: nat, width: nat)
    ensures At(rows, width, 0) == At(width, rows, 0)
  {
    AtIsProduct(rows, width, 0);
    AtIsProduct(width, rows, 0);
    assert rows * width == width * rows;
  }

  // ------------------------------------------------------------------------------------------------
  // The passes, as relations.  `elem` is the element size in bytes, `nb` is the number of elements over eight.

  /** Byte j of element i goes to row j, column i. */
  predicate BytesTransposed(s: seq<byte>, t: seq<byte>, size: nat, elem: nat) {
    && |s| == |t| == At(size, elem, 0) == At(elem, size, 0)
    && forall i, j :: 0 <= i < size && 0 <= j < elem ==> ByteMoved(s, t, size, elem, i, j)
  }

  predicate ByteMoved(s: seq<byte>, t: seq<byte>, size: nat, elem: nat, i: nat, j: nat) {
    && At(j, size, i) < |t| && At(i, elem, j) < |s|
    && t[At(j, size, i)] == s[At(i, elem, j)]
  }

  /** The bits of y are the bits number k of the eight bytes at `at`. */
  predicate IsColumn(y: byte, s: seq<byte>, at: nat, k: nat)
    requires k < 8 && at + 8 <= |s|
  {
    forall c :: 0 <= c < 8 ==> Bit(y, c) == Bit(s[at + c], k)
  }

  /** Bit k of byte 8q+c goes to bit c of byte q of row k; there are n bytes in a row. */
  predicate BitsTransposed(s: seq<byte>, t: seq<byte>, n: nat) {
    && |s| == |t| == 8 * n
    && forall q, k :: 0 <= q < n && 0 <= k < 8 ==> OctetMoved(s, t, n, q, k)
  }

  predicate OctetMoved(s: seq<byte>, t: seq<byte>, n: nat, q: nat, k: nat)
    requires k < 8
  {
    && At(k, n, q) < |t| && 8 * q + 8 <= |s|
    && IsColumn(t[At(k, n, q)], s, 8 * q, k)
  }

  /** Rows of nb bytes: row (k, j) of an 8 x elem array of rows goes to row (j, k). */
  predicate RowsTransposed(s: seq<byte>, t: seq<byte>, nb: nat, elem: nat) {
    && |s| == |t| == At(At(8, elem, 0), nb, 0)
    && forall k, j, b :: 0 <= k < 8 && 0 <= j < elem && 0 <= b < nb ==> RowMoved(s, t, nb, elem, k, j, b)
  }

  predicate RowMoved(s: seq<byte>, t: seq<byte>, nb: nat, elem: nat, k: nat, j: nat, b: nat) {
    && At(At(j, 8, k), nb, b) < |t| && At(At(k, elem, j), nb, b) < |s|
    && t[At(At(j, 8, k), nb, b)] == s[At(At(k, elem, j), nb, b)]
  }

  /** The whole shuffle: bit k of byte j of element 8b+c goes to row 8j+k, byte b, bit c. */
  predicate Shuffled(s: seq<byte>, t: seq<byte>, nb: nat, elem: nat) {
    && |s| == |t| == At(8 * nb, elem, 0)
    && forall b, c, j, k :: 0 <= b < nb && 0 <= c < 8 && 0 <= j < elem && 0 <= k < 8 ==> BitMoved(s, t, nb, elem, b, c, j, k)
  }

  predicate BitMoved(s: seq<byte>, t: seq<byte>, nb: nat, elem: nat, b: nat, c: nat, j: nat, k: nat)
    requires c < 8 && k < 8
  {
    && At(8 * j + k, nb, b) < |t| && At(8 * b + c, elem, j) < |s|
    && Bit(t[At(8 * j + k, nb, b)], c) == Bit(s[At(8 * b + c, elem, j)], k)
  }

  /** First pass of the inverse: byte b of row 8j+k goes to block b, octet j, byte k. */
  predicate RowsGathered(s: seq<byte>, t: seq<byte>, nb: nat, elem: nat) {
    && |s| == |t| == At(8 * nb, elem, 0)
    && forall b, j, k :: 0 <= b < nb && 0 <= j < elem && 0 <= k < 8 ==> ByteGathered(s, t, nb, elem, b, j, k)
  }

  predicate ByteGathered(s: seq<byte>, t: seq<byte>, nb: nat, elem: nat, b: nat, j: nat, k: nat) {
    && At(b, 8 * elem, 8 * j + k) < |t| && At(8 * j + k, nb, b) < |s|
    && t[At(b, 8 * elem, 8 * j + k)] == s[At(8 * j + k, nb, b)]
  }

  /** Second pass of the inverse: bit c of byte k of octet j of block b goes to bit k of byte j of element c of the block. */
  predicate OctetsSpread(s: seq<byte>, t: seq<byte>, nb: nat, elem: nat) {
    && |s| == |t| == At(8 * nb, elem, 0)
    && forall b, j, c :: 0 <= b < nb && 0 <= j < elem && 0 <= c < 8 ==> OctetSpread(s, t, nb, elem, b, j, c)
  }

  predicate OctetSpread(s: seq<byte>, t: seq<byte>, nb: nat, elem: nat, b: nat, j: nat, c: nat)
    requires c < 8
  {
    && At(8 * b + c, elem, j) < |t| && At(b, 8 * elem, 8 * j) + 8 <= |s|
    && IsColumn(t[At(8 * b + c, elem, j)], s, At(b, 8 * elem, 8 * j), c)
  }

  // ------------------------------------------------------------------------------------------------
  // How they compose

  lemma ThreeMoves(s: seq<byte>, t1: seq<byte>, t2: seq<byte>, t: seq<byte>, nb: nat, elem: nat,
                   b: nat, c: nat, j: nat, k: nat)
    requires c < 8 && k < 8
    requires ByteMoved(s, t1, 8 * nb, elem, 8 * b + c, j)
    requires OctetMoved(t1, t2, At(elem, nb, 0), At(j, nb, b), k)
    requires RowMoved(t2, t, nb, elem, k, j, b)
    ensures BitMoved(s, t, nb, elem, b, c, j, k)
  {
    AtTimesEight(j, nb, b, c);
    AtNested(k, elem, j, nb, b);
    AtEight(j, k);
    assert Bit(t2[At(k, At(elem, nb, 0), At(j, nb, b))], c) == Bit(t1[8 * At(j, nb, b) + c], k);
  }

  /** The three passes of the scalar shuffle are the bit-matrix transpose. */
  lemma ThreePassesShuffle(s: seq<byte>, t1: seq<byte>, t2: seq<byte>, t: seq<byte>, nb: nat, elem: nat)
    requires BytesTransposed(s, t1, 8 * nb, elem)
    requires BitsTransposed(t1, t2, At(elem, nb, 0))
    requires RowsTransposed(t2, t, nb, elem)
    ensures Shuffled(s, t, nb, elem)
  {
    forall b, c, j, k | 0 <= b < nb && 0 <= c < 8 && 0 <= j < elem && 0 <= k < 8 ensures BitMoved(s, t, nb, elem, b, c, j, k) {
      AtBound(j, elem, nb, b);
      assert ByteMoved(s, t1, 8 * nb, elem, 8 * b + c, j);
      assert OctetMoved(t1, t2, At(elem, nb, 0), At(j, nb, b), k);
      assert RowMoved(t2, t, nb, elem, k, j, b);
      ThreeMoves(s, t1, t2, t, nb, elem, b, c, j, k);
    }
  }

  lemma TwoPassesRestoreByte(s: seq<byte>, t: seq<byte>, u1: seq<byte>, u: seq<byte>, nb: nat, elem: nat,
                             b: nat, c: nat, j: nat)
    requires Shuffled(s, t, nb, elem) && RowsGathered(t, u1, nb, elem) && OctetsSpread(u1, u, nb, elem)
    requires b < nb && c < 8 && j < elem
    ensures At(8 * b + c, elem, j) < |u| && u[At(8 * b + c, elem, j)] == s[At(8 * b + c, elem, j)]
  {
    var p := At(8 * b + c, elem, j);
    assert OctetSpread(u1, u, nb, elem, b, j, c);
    assert BitMoved(s, t, nb, elem, b, c, j, 0);
    forall k | 0 <= k < 8 ensures Bit(u[p], k) == Bit(s[p], k) {
      AtColumn(b, 8 * elem, 8 * j, k);
      assert ByteGathered(t, u1, nb, elem, b, j, k);
      assert BitMoved(s, t, nb, elem, b, c, j, k);
      assert Bit(u[p], k) == Bit(u1[At(b, 8 * elem, 8 * j) + k], c);
    }
    BitsAreTheByte(u[p], s[p]);
  }

  /** The two passes of the inverse undo the shuffle. */
  lemma UnshuffleInverts(s: seq<byte>, t: seq<byte>, u1: seq<byte>, u: seq<byte>, nb: nat, elem: nat)
    requires Shuffled(s, t, nb, elem) && RowsGathered(t, u1, nb, elem) && OctetsSpread(u1, u, nb, elem)
    ensures u == s
  {
    forall p | 0 <= p < |s| ensures u[p] == s[p] {
      var i, j := AtCovers(p, 8 * nb, elem);
      TwoPassesRestoreByte(s, t, u1, u, nb, elem, i / 8, i % 8, j);
      assert 8 * (i / 8) + i % 8 == i;
    }
  }

  /** The shuffle is determined by its input, so any two correct implementations agree. */
  lemma ShuffleIsUnique(s: seq<byte>, t: seq<byte>, t': seq<byte>, nb: nat, elem: nat)
    requires Shuffled(s, t, nb, elem) && Shuffled(s, t', nb, elem)
    ensures t == t'
  {
    forall p | 0 <= p < |t| ensures t[p] == t'[p] {
      ShuffledRows(nb, elem);
      var r, b := AtCovers(p, 8 * elem, nb);
      var j, k := r / 8, r % 8;
      assert 8 * j + k == r;
      forall c | 0 <= c < 8 ensures Bit(t[p], c) == Bit(t'[p], c) {
        assert BitMoved(s, t, nb, elem, b, c, j, k) && BitMoved(s, t', nb, elem, b, c, j, k);
      }
      BitsAreTheByte(t[p], t'[p]);
    }
  }

  lemma ShuffledRows(nb: nat, elem: nat)
    ensures At(8 * nb, elem, 0) == At(8 * elem, nb, 0)
  {
    AtIsProduct(8 * nb, elem, 0);
    AtIsProduct(8 * elem, nb, 0);
    assert (8 * nb) * elem == (8 * elem) * nb;
  }

  // ------------------------------------------------------------------------------------------------
  // The shuffle and its inverse as functions

  function RowOf(p: nat, width: nat): nat
    requires width > 0
  {
    if p < width then 0 else 1 + RowOf(p - width, width)
  }

  function ColumnOf(p: nat, width: nat): (c: nat)
    requires width > 0
    ensures c < width
  {
    if p < width then p else ColumnOf(p - width, width)
  }

  lemma {:induction false} AtOfRow(p: nat, rows: nat, width: nat)
    requires width > 0 && p < At(rows, width, 0)
    ensures RowOf(p, width) < rows && At(RowOf(p, width), width, ColumnOf(p, width)) == p
  {
    if p >= width { AtOfRow(p - width, rows - 1, width); }
  }

  lemma {:induction false} RowOfAt(row: nat, width: nat, col: nat)
    requires col < width
    ensures RowOf(At(row, width, col), width) == row && ColumnOf(At(row, width, col), width) == col
  {
    if row > 0 { RowOfAt(row - 1, width, col); }
  }

  lemma Inside(nb: nat, elem: nat, b: nat, c: nat, j: nat)
    requires b < nb && c < 8 && j < elem
    ensures At(8 * b + c, elem, j) < At(8 * nb, elem, 0)
  {
    AtBound(8 * b + c, 8 * nb, elem, j);
  }

  lemma InsideRows(nb: nat, elem: nat, b: nat, j: nat, k: nat)
    requires b < nb && k < 8 && j < elem
    ensures At(8 * j + k, nb, b) < At(8 * nb, elem, 0)
  {
    ShuffledRows(nb, elem);
    AtBound(8 * j + k, 8 * elem, nb, b);
  }

  predicate BitAt(s: seq<byte>, p: nat, k: nat)
    requires k < 8
  {
    p < |s| && Bit(s[p], k)
  }

  /** Bit c of this byte is bit k of byte j of element 8b+c. */
  function RowByte(s: seq<byte>, elem: nat, j: nat, k: nat, b: nat): byte
    requires k < 8
  {
    Pack(BitAt(s, At(8 * b, elem, j), k), BitAt(s, At(8 * b + 1, elem, j), k),
         BitAt(s, At(8 * b + 2, elem, j), k), BitAt(s, At(8 * b + 3, elem, j), k),
         BitAt(s, At(8 * b + 4, elem, j), k), BitAt(s, At(8 * b + 5, elem, j), k),
         BitAt(s, At(8 * b + 6, elem, j), k), BitAt(s, At(8 * b + 7, elem, j), k))
  }

  /** Bit k of this byte is bit c of byte b of row 8j+k. */
  function ElementByte(t: seq<byte>, nb: nat, b: nat, c: nat, j: nat): byte
    requires c < 8
  {
    Pack(BitAt(t, At(8 * j, nb, b), c), BitAt(t, At(8 * j + 1, nb, b), c),
         BitAt(t, At(8 * j + 2, nb, b), c), BitAt(t, At(8 * j + 3, nb, b), c),
         BitAt(t, At(8 * j + 4, nb, b), c), BitAt(t, At(8 * j + 5, nb, b), c),
         BitAt(t, At(8 * j + 6, nb, b), c), BitAt(t, At(8 * j + 7, nb, b), c))
  }

  lemma RowByteBit(s: seq<byte>, elem: nat, j: nat, k: nat, b: nat, c: nat)
    requires k < 8 && c < 8
    ensures Bit(RowByte(s, elem, j, k, b), c) == BitAt(s, At(8 * b + c, elem, j), k)
  {
    hide Pack, Bit, At, BitAt;
    PackedBit(BitAt(s, At(8 * b, elem, j), k), BitAt(s, At(8 * b + 1, elem, j), k),
              BitAt(s, At(8 * b + 2, elem, j), k), BitAt(s, At(8 * b + 3, elem, j), k),
              BitAt(s, At(8 * b + 4, elem, j), k), BitAt(s, At(8 * b + 5, elem, j), k),
              BitAt(s, At(8 * b + 6, elem, j), k), BitAt(s, At(8 * b + 7, elem, j), k), c);
  }

  lemma ElementByteBit(t: seq<byte>, nb: nat, b: nat, c: nat, j: nat, k: nat)
    requires k < 8 && c < 8
    ensures Bit(ElementByte(t, nb, b, c, j), k) == BitAt(t, At(8 * j + k, nb, b), c)
  {
    hide Pack, Bit, At, BitAt;
    PackedBit(BitAt(t, At(8 * j, nb, b), c), BitAt(t, At(8 * j + 1, nb, b), c),
              BitAt(t, At(8 * j + 2, nb, b), c), BitAt(t, At(8 * j + 3, nb, b), c),
              BitAt(t, At(8 * j + 4, nb, b), c), BitAt(t, At(8 * j + 5, nb, b), c),
              BitAt(t, At(8 * j + 6, nb, b), c), BitAt(t, At(8 * j + 7, nb, b), c), k);
  }

  /** What the shuffle stores at position p. */
  function ShuffledByte(s: seq<byte>, nb: nat, elem: nat, p: nat): byte
    requires p < |s| == At(8 * nb, elem, 0)
  {
    ShuffledRows(nb, elem);
    AtWidth(8 * elem, nb);
    AtOfRow(p, 8 * elem, nb);
    RowByte(s, elem, RowOf(p, nb) / 8, RowOf(p, nb) % 8, ColumnOf(p, nb))
  }

  function UnshuffledByte(t: seq<byte>, nb: nat, elem: nat, p: nat): byte
    requires p < |t| == At(8 * nb, elem, 0)
  {
    AtWidth(8 * nb, elem);
    AtOfRow(p, 8 * nb, elem);
    ElementByte(t, nb, RowOf(p, elem) / 8, RowOf(p, elem) % 8, ColumnOf(p, elem))
  }

  lemma {:induction false} AtWidth(rows: nat, width: nat)
    ensures At(rows, width, 0) > 0 ==> width > 0
  {
    if rows > 0 { AtWidth(rows - 1, width); }
  }

  function ShuffleOf(s: seq<byte>, nb: nat, elem: nat): (t: seq<byte>)
    requires |s| == At(8 * nb, elem, 0)
    ensures |t| == |s|
  {
    seq(|s|, p requires 0 <= p < |s| => ShuffledByte(s, nb, elem, p))
  }

  function UnshuffleOf(t: seq<byte>, nb: nat, elem: nat): (s: seq<byte>)
    requires |t| == At(8 * nb, elem, 0)
    ensures |s| == |t|
  {
    seq(|t|, p requires 0 <= p < |t| => UnshuffledByte(t, nb, elem, p))
  }

  lemma ShuffleOfAt(s: seq<byte>, nb: nat, elem: nat, j: nat, k: nat, b: nat)
    requires |s| == At(8 * nb, elem, 0) && b < nb && j < elem && k < 8
    ensures At(8 * j + k, nb, b) < |s|
    ensures ShuffleOf(s, nb, elem)[At(8 * j + k, nb, b)] == RowByte(s, elem, j, k, b)
  {
    hide At, RowByte, RowOf, ColumnOf;
    InsideRows(nb, elem, b, j, k);
    RowOfAt(8 * j + k, nb, b);
  }

  lemma UnshuffleOfAt(t: seq<byte>, nb: nat, elem: nat, b: nat, c: nat, j: nat)
    requires |t| == At(8 * nb, elem, 0) && b < nb && j < elem && c < 8
    ensures At(8 * b + c, elem, j) < |t|
    ensures UnshuffleOf(t, nb, elem)[At(8 * b + c, elem, j)] == ElementByte(t, nb, b, c, j)
  {
    Inside(nb, elem, b, c, j);
    RowOfAt(8 * b + c, elem, j);
  }

  lemma ShuffleOfShuffles(s: seq<byte>, nb: nat, elem: nat)
    requires |s| == At(8 * nb, elem, 0)
    ensures Shuffled(s, ShuffleOf(s, nb, elem), nb, elem)
  {
    hide RowByte, ShuffleOf, Bit;
    forall b, c, j, k | 0 <= b < nb && 0 <= c < 8 && 0 <= j < elem && 0 <= k < 8
      ensures BitMoved(s, ShuffleOf(s, nb, elem), nb, elem, b, c, j, k)
    {
      ShuffleOfAt(s, nb, elem, j, k, b);
      Inside(nb, elem, b, c, j);
      RowByteBit(s, elem, j, k, b, c);
    }
  }

  /** Unshuffling undoes shuffling, and shuffling undoes unshuffling: the shuffle is a bijection. */
  lemma UnshuffleOfShuffled(s: seq<byte>, t: seq<byte>, nb: nat, elem: nat)
    requires |t| == At(8 * nb, elem, 0)
    ensures Shuffled(s, t, nb, elem) <==> |s| == |t| && s == UnshuffleOf(t, nb, elem)
  {
    hide ElementByte, UnshuffleOf, Bit;
    if Shuffled(s, t, nb, elem) {
      forall p | 0 <= p < |s| ensures s[p] == UnshuffleOf(t, nb, elem)[p] {
        var i, j := AtCovers(p, 8 * nb, elem);
        var b, c := i / 8, i % 8;
        assert 8 * b + c == i;
        UnshuffleOfAt(t, nb, elem, b, c, j);
        forall k | 0 <= k < 8 ensures Bit(s[p], k) == Bit(ElementByte(t, nb, b, c, j), k) {
          assert BitMoved(s, t, nb, elem, b, c, j, k);
          ElementByteBit(t, nb, b, c, j, k);
        }
        BitsAreTheByte(s[p], ElementByte(t, nb, b, c, j));
      }
    }
    if |s| == |t| && s == UnshuffleOf(t, nb, elem) {
      forall b, c, j, k | 0 <= b < nb && 0 <= c < 8 && 0 <= j < elem && 0 <= k < 8 ensures BitMoved(s, t, nb, elem, b, c, j, k) {
        UnshuffleOfAt(t, nb, elem, b, c, j);
        InsideRows(nb, elem, b, j, k);
        ElementByteBit(t, nb, b, c, j, k);
      }
    }
  }

  lemma ShuffleIsBijective(s: seq<byte>, nb: nat, elem: nat)
    requires |s| == At(8 * nb, elem, 0)
    ensures UnshuffleOf(ShuffleOf(s, nb, elem), nb, elem) == s
    ensures ShuffleOf(UnshuffleOf(s, nb, elem), nb, elem) == s
  {
    ShuffleOfShuffles(s, nb, elem);
    UnshuffleOfShuffled(s, ShuffleOf(s, nb, elem), nb, elem);
    var u := UnshuffleOf(s, nb, elem);
    UnshuffleOfShuffled(u, s, nb, elem);
    ShuffleOfShuffles(u, nb, elem);
    ShuffleIsUnique(u, s, ShuffleOf(u, nb, elem), nb, elem);
  }

  /** The two passes of the inverse, for any input: what they give is the unshuffled buffer. */
  lemma TwoPassesUnshuffle(t: seq<byte>, u1: seq<byte>, u: seq<byte>, nb: nat, elem: nat)
    requires RowsGathered(t, u1, nb, elem) && OctetsSpread(u1, u, nb, elem)
    ensures u == UnshuffleOf(t, nb, elem)
  {
    var s := UnshuffleOf(t, nb, elem);
    UnshuffleOfShuffled(s, t, nb, elem);
    UnshuffleInverts(s, t, u1, u, nb, elem);
  }
}
