/**
  The scalar passes of bitshuffle, in place on byte buffers, each proved to be the pass it stands for; and the
  shuffle and unshuffle built from them.
*/
module BitshuffleScalar {
  import opened BitMatrix

  const NOT_MULTIPLE_OF_EIGHT := -80

  // ------------------------------------------------------------------------------------------------
  // The 8x8 bit transpose of one quadword

  /** Three rounds of masked swaps: bits one, two and four places off the diagonal. */
  function TransBit8x8(x0: bv64): bv64 {
    var t1 := (x0 ^ (x0 >> 7)) & 0x00AA00AA00AA00AA;
    var x1 := x0 ^ t1 ^ (t1 << 7);
    var t2 := (x1 ^ (x1 >> 14)) & 0x0000CCCC0000CCCC;
    var x2 := x1 ^ t2 ^ (t2 << 14);
    var t3 := (x2 ^ (x2 >> 28)) & 0x00000000F0F0F0F0;
    x2 ^ t3 ^ (t3 << 28)
  }

  function LowByte(x: bv64): byte {
    (x & 0xFF) as byte
  }

  /** Shifted down by k bytes. */
  function ShiftedBy(x: bv64, k: nat): bv64 {
    if k == 0 then x else if k == 1 then x >> 8 else if k == 2 then x >> 16 else if k == 3 then x >> 24
    else if k == 4 then x >> 32 else if k == 5 then x >> 40 else if k == 6 then x >> 48 else if k == 7 then x >> 56 else 0
  }

  lemma ShiftOnce(x: bv64, k: nat)
    requires k < 8
    ensures ShiftedBy(x, k) >> 8 == ShiftedBy(x, k + 1)
  {
    match k
    case 0 => assert (x >> 0) >> 8 == x >> 8;
    case 1 => assert (x >> 8) >> 8 == x >> 16;
    case 2 => assert (x >> 16) >> 8 == x >> 24;
    case 3 => assert (x >> 24) >> 8 == x >> 32;
    case 4 => assert (x >> 32) >> 8 == x >> 40;
    case 5 => assert (x >> 40) >> 8 == x >> 48;
    case 6 => assert (x >> 48) >> 8 == x >> 56;
    case _ => assert (x >> 56) >> 8 == 0;
  }

  /** Byte k of a quadword. */
  function ByteOf(x: bv64, k: nat): byte {
    LowByte(ShiftedBy(x, k))
  }

  lemma Row0Bits(x: bv64)
    ensures var y := LowByte(TransBit8x8(x));
            && (y & 1 != 0) == (LowByte(x) & 1 != 0) && (y & 2 != 0) == (LowByte(x >> 8) & 1 != 0)
            && (y & 4 != 0) == (LowByte(x >> 16) & 1 != 0) && (y & 8 != 0) == (LowByte(x >> 24) & 1 != 0)
            && (y & 16 != 0) == (LowByte(x >> 32) & 1 != 0) && (y & 32 != 0) == (LowByte(x >> 40) & 1 != 0)
            && (y & 64 != 0) == (LowByte(x >> 48) & 1 != 0) && (y & 128 != 0) == (LowByte(x >> 56) & 1 != 0)
  {
  }

  lemma Row1Bits(x: bv64)
    ensures var y := LowByte(TransBit8x8(x) >> 8);
            && (y & 1 != 0) == (LowByte(x) & 2 != 0) && (y & 2 != 0) == (LowByte(x >> 8) & 2 != 0)
            && (y & 4 != 0) == (LowByte(x >> 16) & 2 != 0) && (y & 8 != 0) == (LowByte(x >> 24) & 2 != 0)
            && (y & 16 != 0) == (LowByte(x >> 32) & 2 != 0) && (y & 32 != 0) == (LowByte(x >> 40) & 2 != 0)
            && (y & 64 != 0) == (LowByte(x >> 48) & 2 != 0) && (y & 128 != 0) == (LowByte(x >> 56) & 2 != 0)
  {
  }

  lemma Row2Bits(x: bv64)
    ensures var y := LowByte(TransBit8x8(x) >> 16);
            && (y & 1 != 0) == (LowByte(x) & 4 != 0) && (y & 2 != 0) == (LowByte(x >> 8) & 4 != 0)
            && (y & 4 != 0) == (LowByte(x >> 16) & 4 != 0) && (y & 8 != 0) == (LowByte(x >> 24) & 4 != 0)
            && (y & 16 != 0) == (LowByte(x >> 32) & 4 != 0) && (y & 32 != 0) == (LowByte(x >> 40) & 4 != 0)
            && (y & 64 != 0) == (LowByte(x >> 48) & 4 != 0) && (y & 128 != 0) == (LowByte(x >> 56) & 4 != 0)
  {
  }

  lemma Row3Bits(x: bv64)
    ensures var y := LowByte(TransBit8x8(x) >> 24);
            && (y & 1 != 0) == (LowByte(x) & 8 != 0) && (y & 2 != 0) == (LowByte(x >> 8) & 8 != 0)
            && (y & 4 != 0) == (LowByte(x >> 16) & 8 != 0) && (y & 8 != 0) == (LowByte(x >> 24) & 8 != 0)
            && (y & 16 != 0) == (LowByte(x >> 32) & 8 != 0) && (y & 32 != 0) == (LowByte(x >> 40) & 8 != 0)
            && (y & 64 != 0) == (LowByte(x >> 48) & 8 != 0) && (y & 128 != 0) == (LowByte(x >> 56) & 8 != 0)
  {
  }

  lemma Row4Bits(x: bv64)
    ensures var y := LowByte(TransBit8x8(x) >> 32);
            && (y & 1 != 0) == (LowByte(x) & 16 != 0) && (y & 2 != 0) == (LowByte(x >> 8) & 16 != 0)
            && (y & 4 != 0) == (LowByte(x >> 16) & 16 != 0) && (y & 8 != 0) == (LowByte(x >> 24) & 16 != 0)
            && (y & 16 != 0) == (LowByte(x >> 32) & 16 != 0) && (y & 32 != 0) == (LowByte(x >> 40) & 16 != 0)
            && (y & 64 != 0) == (LowByte(x >> 48) & 16 != 0) && (y & 128 != 0) == (LowByte(x >> 56) & 16 != 0)
  {
  }

  lemma Row5Bits(x: bv64)
    ensures var y := LowByte(TransBit8x8(x) >> 40);
            && (y & 1 != 0) == (LowByte(x) & 32 != 0) && (y & 2 != 0) == (LowByte(x >> 8) & 32 != 0)
            && (y & 4 != 0) == (LowByte(x >> 16) & 32 != 0) && (y & 8 != 0) == (LowByte(x >> 24) & 32 != 0)
            && (y & 16 != 0) == (LowByte(x >> 32) & 32 != 0) && (y & 32 != 0) == (LowByte(x >> 40) & 32 != 0)
            && (y & 64 != 0) == (LowByte(x >> 48) & 32 != 0) && (y & 128 != 0) == (LowByte(x >> 56) & 32 != 0)
  {
  }

  lemma Row6Bits(x: bv64)
    ensures var y := LowByte(TransBit8x8(x) >> 48);
            && (y & 1 != 0) == (LowByte(x) & 64 != 0) && (y & 2 != 0) == (LowByte(x >> 8) & 64 != 0)
            && (y & 4 != 0) == (LowByte(x >> 16) & 64 != 0) && (y & 8 != 0) == (LowByte(x >> 24) & 64 != 0)
            && (y & 16 != 0) == (LowByte(x >> 32) & 64 != 0) && (y & 32 != 0) == (LowByte(x >> 40) & 64 != 0)
            && (y & 64 != 0) == (LowByte(x >> 48) & 64 != 0) && (y & 128 != 0) == (LowByte(x >> 56) & 64 != 0)
  {
  }

  lemma Row7Bits(x: bv64)
    ensures var y := LowByte(TransBit8x8(x) >> 56);
            && (y & 1 != 0) == (LowByte(x) & 128 != 0) && (y & 2 != 0) == (LowByte(x >> 8) & 128 != 0)
            && (y & 4 != 0) == (LowByte(x >> 16) & 128 != 0) && (y & 8 != 0) == (LowByte(x >> 24) & 128 != 0)
            && (y & 16 != 0) == (LowByte(x >> 32) & 128 != 0) && (y & 32 != 0) == (LowByte(x >> 40) & 128 != 0)
            && (y & 64 != 0) == (LowByte(x >> 48) & 128 != 0) && (y & 128 != 0) == (LowByte(x >> 56) & 128 != 0)
  {
  }

  /** Bit c of byte k of the transposed quadword is bit k of byte c of the original. */
  lemma TransposesBits(x: bv64, k: nat, c: nat)
    requires k < 8 && c < 8
    ensures Bit(ByteOf(TransBit8x8(x), k), c) == Bit(ByteOf(x, c), k)
  {
    hide TransBit8x8, LowByte;
    match k {
      case 0 => Row0Bits(x);
      case 1 => Row1Bits(x);
      case 2 => Row2Bits(x);
      case 3 => Row3Bits(x);
      case 4 => Row4Bits(x);
      case 5 => Row5Bits(x);
      case 6 => Row6Bits(x);
      case _ => Row7Bits(x);
    }
    match c case 0 => case 1 => case 2 => case 3 => case 4 => case 5 => case 6 => case _ =>
  }

  /** Eight bytes as a little-endian quadword. */
  function Quad(b0: byte, b1: byte, b2: byte, b3: byte, b4: byte, b5: byte, b6: byte, b7: byte): bv64 {
    (b0 as bv64) | ((b1 as bv64) << 8) | ((b2 as bv64) << 16) | ((b3 as bv64) << 24)
    | ((b4 as bv64) << 32) | ((b5 as bv64) << 40) | ((b6 as bv64) << 48) | ((b7 as bv64) << 56)
  }

  function LoadQuad(s: seq<byte>, at: nat): bv64
    requires at + 8 <= |s|
  {
    Quad(s[at], s[at + 1], s[at + 2], s[at + 3], s[at + 4], s[at + 5], s[at + 6], s[at + 7])
  }

  lemma QuadBytes(b0: byte, b1: byte, b2: byte, b3: byte, b4: byte, b5: byte, b6: byte, b7: byte)
    ensures var x := Quad(b0, b1, b2, b3, b4, b5, b6, b7);
            && LowByte(x) == b0 && LowByte(x >> 8) == b1 && LowByte(x >> 16) == b2 && LowByte(x >> 24) == b3
            && LowByte(x >> 32) == b4 && LowByte(x >> 40) == b5 && LowByte(x >> 48) == b6 && LowByte(x >> 56) == b7
  {
  }

  lemma QuadByte(b0: byte, b1: byte, b2: byte, b3: byte, b4: byte, b5: byte, b6: byte, b7: byte, c: nat)
    requires c < 8
    ensures ByteOf(Quad(b0, b1, b2, b3, b4, b5, b6, b7), c) == [b0, b1, b2, b3, b4, b5, b6, b7][c]
  {
    hide LowByte, Quad;
    QuadBytes(b0, b1, b2, b3, b4, b5, b6, b7);
    match c case 0 => case 1 => case 2 => case 3 => case 4 => case 5 => case 6 => case _ =>
  }

  lemma LoadedByte(s: seq<byte>, at: nat, c: nat)
    requires at + 8 <= |s| && c < 8
    ensures ByteOf(LoadQuad(s, at), c) == s[at + c]
  {
    hide ByteOf, Quad;
    QuadByte(s[at], s[at + 1], s[at + 2], s[at + 3], s[at + 4], s[at + 5], s[at + 6], s[at + 7], c);
  }

  lemma OctetColumn(s: seq<byte>, at: nat, k: nat)
    requires at + 8 <= |s| && k < 8
    ensures IsColumn(ByteOf(TransBit8x8(LoadQuad(s, at)), k), s, at, k)
  {
    hide TransBit8x8, LoadQuad, ByteOf, Bit;
    forall c | 0 <= c < 8 ensures Bit(ByteOf(TransBit8x8(LoadQuad(s, at)), k), c) == Bit(s[at + c], k) {
      TransposesBits(LoadQuad(s, at), k, c);
      LoadedByte(s, at, c);
    }
  }

  // ------------------------------------------------------------------------------------------------
  // Transposing bits within bytes

  /** Position (k, q) has not changed. */
  predicate Kept(t0: seq<byte>, t: seq<byte>, n: nat, k: nat, q: nat) {
    At(k, n, q) < |t0| == |t| && t[At(k, n, q)] == t0[At(k, n, q)]
  }

  lemma StoreKeeps(t: seq<byte>, n: nat, k: nat, q: nat, v: byte, k': nat, q': nat)
    requires q < n && q' < n && (k != k' || q != q')
    requires At(k, n, q) < |t| && At(k', n, q') < |t|
    ensures Kept(t, t[At(k, n, q) := v], n, k', q')
  {
    if At(k, n, q) == At(k', n, q') { AtInjective(k, q, k', q', n); }
  }

  lemma AllInside(n: nat)
    ensures At(8, n, 0) == 8 * n
    ensures forall k, q :: 0 <= k < 8 && 0 <= q < n ==> At(k, n, q) < 8 * n
  {
    AtIsProduct(8, n, 0);
    forall k, q | 0 <= k < 8 && 0 <= q < n ensures At(k, n, q) < 8 * n {
      AtBound(k, 8, n, q);
    }
  }

  /** Octet q: load, transpose, and store the eight bytes, one in each row. */
  method TransOctet(inp: array<byte>, out: array<byte>, n: nat, q: nat)
    requires inp != out && inp.Length == out.Length == 8 * n && q < n
    modifies out
    ensures forall k :: 0 <= k < 8 ==> OctetMoved(inp[..], out[..], n, q, k)
    ensures forall k, r :: 0 <= k < 8 && 0 <= r < n && r != q ==> Kept(old(out[..]), out[..], n, k, r)
  {
    hide TransBit8x8, LoadQuad, LowByte, ShiftedBy, IsColumn, Quad;
    ghost var s, t0 := inp[..], out[..];
    var x0 := TransBit8x8(LoadQuad(inp[..], 8 * q));
    var x := x0;
    AllInside(n);
    ShiftedByNone(x0);
    for kk := 0 to 8
      invariant x == ShiftedBy(x0, kk)
      invariant inp[..] == s
      invariant forall k :: 0 <= k < kk ==> OctetMoved(s, out[..], n, q, k)
      invariant forall k, r :: 0 <= k < 8 && 0 <= r < n && r != q ==> Kept(t0, out[..], n, k, r)
    {
      ghost var t := out[..];
      AtBound(kk, 8, n, q);
      OctetColumn(s, 8 * q, kk);
      ShiftOnce(x0, kk);
      out[At(kk, n, q)] := LowByte(x);
      x := x >> 8;
      assert out[..] == t[At(kk, n, q) := ByteOf(x0, kk)];
      OctetStored(s, t0, t, n, q, kk, ByteOf(x0, kk));
    }
  }

  lemma ShiftedByNone(x: bv64)
    ensures ShiftedBy(x, 0) == x
  {
  }

  lemma OctetStored(s: seq<byte>, t0: seq<byte>, t: seq<byte>, n: nat, q: nat, kk: nat, v: byte)
    requires |s| == |t| == |t0| == 8 * n && q < n && kk < 8 && At(kk, n, q) < |t|
    requires IsColumn(v, s, 8 * q, kk)
    requires forall k :: 0 <= k < kk ==> OctetMoved(s, t, n, q, k)
    requires forall k, r :: 0 <= k < 8 && 0 <= r < n && r != q ==> Kept(t0, t, n, k, r)
    ensures var u := t[At(kk, n, q) := v];
            && (forall k :: 0 <= k < kk + 1 ==> OctetMoved(s, u, n, q, k))
            && (forall k, r :: 0 <= k < 8 && 0 <= r < n && r != q ==> Kept(t0, u, n, k, r))
  {
    hide IsColumn;
    var u := t[At(kk, n, q) := v];
    forall k | 0 <= k < kk ensures OctetMoved(s, u, n, q, k) {
      assert OctetMoved(s, t, n, q, k);
      StoreKeeps(t, n, kk, q, v, k, q);
    }
    forall k, r | 0 <= k < 8 && 0 <= r < n && r != q ensures Kept(t0, u, n, k, r) {
      assert Kept(t0, t, n, k, r);
      StoreKeeps(t, n, kk, q, v, k, r);
    }
  }

  /** Octet columns from `start_byte` on; the rest of the output is left alone. */
  method TransBitByteRemainder(inp: array<byte>, out: array<byte>, size: nat, elem: nat, startByte: nat)
    returns (count: int)
    requires inp != out && inp.Length == out.Length == At(size, elem, 0)
    modifies out
    ensures inp.Length % 8 != 0 || startByte % 8 != 0 ==> count == NOT_MULTIPLE_OF_EIGHT && out[..] == old(out[..])
    ensures inp.Length % 8 == 0 && startByte % 8 == 0 ==>
              && count == At(size, elem, 0)
              && (forall q, k :: startByte / 8 <= q < inp.Length / 8 && 0 <= k < 8 ==>
                                   OctetMoved(inp[..], out[..], inp.Length / 8, q, k))
              && (forall q, k :: 0 <= q < startByte / 8 && q < inp.Length / 8 && 0 <= k < 8 ==>
                                   Kept(old(out[..]), out[..], inp.Length / 8, k, q))
  {
    var nbyte := At(size, elem, 0);
    var n := nbyte / 8;
    if nbyte % 8 != 0 { return NOT_MULTIPLE_OF_EIGHT; }
    if startByte % 8 != 0 { return NOT_MULTIPLE_OF_EIGHT; }
    ghost var s, t0 := inp[..], out[..];
    AllInside(n);
    var ii := startByte / 8;
    while ii < n
      invariant startByte / 8 <= ii
      invariant inp[..] == s
      invariant forall q, k :: startByte / 8 <= q < ii && q < n && 0 <= k < 8 ==> OctetMoved(s, out[..], n, q, k)
      invariant forall q, k :: 0 <= q < n && !(startByte / 8 <= q < ii) && 0 <= k < 8 ==> Kept(t0, out[..], n, k, q)
    {
      ghost var t := out[..];
      TransOctet(inp, out, n, ii);
      OctetsKept(s, t0, t, out[..], n, startByte / 8, ii);
      ii := ii + 1;
    }
    count := nbyte;
  }

  lemma OctetsKept(s: seq<byte>, t0: seq<byte>, t: seq<byte>, u: seq<byte>, n: nat, from: nat, ii: nat)
    requires from <= ii < n
    requires forall q, k :: from <= q < ii && 0 <= k < 8 ==> OctetMoved(s, t, n, q, k)
    requires forall q, k :: 0 <= q < n && !(from <= q < ii) && 0 <= k < 8 ==> Kept(t0, t, n, k, q)
    requires forall k, r :: 0 <= k < 8 && 0 <= r < n && r != ii ==> Kept(t, u, n, k, r)
    ensures forall q, k :: from <= q < ii && 0 <= k < 8 ==> OctetMoved(s, u, n, q, k)
    ensures forall q, k :: 0 <= q < n && !(from <= q < ii + 1) && 0 <= k < 8 ==> Kept(t0, u, n, k, q)
  {
    hide IsColumn;
    forall q, k | from <= q < ii && 0 <= k < 8 ensures OctetMoved(s, u, n, q, k) {
      assert Kept(t, u, n, k, q) && OctetMoved(s, t, n, q, k);
    }
    forall q, k | 0 <= q < n && !(from <= q < ii + 1) && 0 <= k < 8 ensures Kept(t0, u, n, k, q) {
      assert Kept(t, u, n, k, q) && Kept(t0, t, n, k, q);
    }
  }

  method TransBitByteScal(inp: array<byte>, out: array<byte>, size: nat, elem: nat) returns (count: int)
    requires inp != out && inp.Length == out.Length == At(size, elem, 0)
    modifies out
    ensures inp.Length % 8 != 0 ==> count == NOT_MULTIPLE_OF_EIGHT
    ensures inp.Length % 8 == 0 ==> count == At(size, elem, 0) && BitsTransposed(inp[..], out[..], inp.Length / 8)
  {
    count := TransBitByteRemainder(inp, out, size, elem, 0);
  }

  // ------------------------------------------------------------------------------------------------
  // Transposing bytes within elements

  /** Byte j of element i has been moved, or has not been touched. */
  predicate Cell(s: seq<byte>, t0: seq<byte>, t: seq<byte>, size: nat, elem: nat, i: nat, j: nat, done: bool) {
    && At(j, size, i) < |t0| == |t| && At(i, elem, j) < |s|
    && t[At(j, size, i)] == if done then s[At(i, elem, j)] else t0[At(j, size, i)]
  }

  /** The cells that satisfy `done` have been moved, the others have not been touched. */
  ghost predicate Cells(s: seq<byte>, t0: seq<byte>, t: seq<byte>, size: nat, elem: nat, done: (nat, nat) -> bool) {
    forall i, j :: 0 <= i < size && 0 <= j < elem ==> Cell(s, t0, t, size, elem, i, j, done(i, j))
  }

  lemma CellStored(s: seq<byte>, t0: seq<byte>, t: seq<byte>, size: nat, elem: nat, i: nat, j: nat,
                   done: (nat, nat) -> bool, after: (nat, nat) -> bool)
    requires i < size && j < elem && Cells(s, t0, t, size, elem, done)
    requires after(i, j) && forall i', j' :: 0 <= i' < size && 0 <= j' < elem && (i' != i || j' != j) ==> after(i', j') == done(i', j')
    ensures At(i, elem, j) < |s| && At(j, size, i) < |t|
    ensures Cells(s, t0, t[At(j, size, i) := s[At(i, elem, j)]], size, elem, after)
  {
    assert Cell(s, t0, t, size, elem, i, j, done(i, j));
    var u := t[At(j, size, i) := s[At(i, elem, j)]];
    forall i', j' | 0 <= i' < size && 0 <= j' < elem ensures Cell(s, t0, u, size, elem, i', j', after(i', j')) {
      assert Cell(s, t0, t, size, elem, i', j', done(i', j'));
      if i' != i || j' != j { StoreKeeps(t, size, j, i, s[At(i, elem, j)], j', i'); }
    }
  }

  lemma CellsRenamed(s: seq<byte>, t0: seq<byte>, t: seq<byte>, size: nat, elem: nat, a: (nat, nat) -> bool, b: (nat, nat) -> bool)
    requires Cells(s, t0, t, size, elem, a)
    requires forall i, j :: 0 <= i < size && 0 <= j < elem ==> a(i, j) == b(i, j)
    ensures Cells(s, t0, t, size, elem, b)
  {
    forall i, j | 0 <= i < size && 0 <= j < elem ensures Cell(s, t0, t, size, elem, i, j, b(i, j)) {
      assert Cell(s, t0, t, size, elem, i, j, a(i, j));
    }
  }

  lemma CellsInitially(s: seq<byte>, t: seq<byte>, size: nat, elem: nat)
    requires |s| == |t| == At(size, elem, 0)
    ensures Cells(s, t, t, size, elem, (i, j) => false)
  {
    AtArea(size, elem);
    forall i, j | 0 <= i < size && 0 <= j < elem ensures Cell(s, t, t, size, elem, i, j, false) {
      AtBound(i, size, elem, j);
      AtBound(j, elem, size, i);
    }
  }

  /** Elements from `start` to `ii` have been moved, and of the next eight: all bytes below jj, and kk of bytes jj. */
  function Reached(start: nat, ii: nat, jj: nat, kk: nat): (nat, nat) -> bool {
    (i, j) => start <= i < ii + if j < jj then 8 else if j == jj then kk else 0
  }

  /** Eight elements: a row of eight bytes for each byte of the element. */
  method StoreEightElements(inp: array<byte>, out: array<byte>, size: nat, elem: nat, ii: nat,
                            ghost t0: seq<byte>, ghost start: nat)
    requires inp != out && start <= ii && ii + 7 < size
    requires Cells(inp[..], t0, out[..], size, elem, Reached(start, ii, 0, 0))
    modifies out
    ensures Cells(inp[..], t0, out[..], size, elem, Reached(start, ii + 8, 0, 0))
  {
    ghost var s := inp[..];
    for jj := 0 to elem
      invariant inp[..] == s && Cells(s, t0, out[..], size, elem, Reached(start, ii, jj, 0))
    {
      for kk := 0 to 8
        invariant inp[..] == s && Cells(s, t0, out[..], size, elem, Reached(start, ii, jj, kk))
      {
        CellStored(s, t0, out[..], size, elem, ii + kk, jj, Reached(start, ii, jj, kk), Reached(start, ii, jj, kk + 1));
        out[At(jj, size, ii + kk)] := inp[At(ii + kk, elem, jj)];
      }
      CellsRenamed(s, t0, out[..], size, elem, Reached(start, ii, jj, 8), Reached(start, ii, jj + 1, 0));
    }
    CellsRenamed(s, t0, out[..], size, elem, Reached(start, ii, elem, 0), Reached(start, ii + 8, 0, 0));
  }

  /** One element of the tail. */
  method StoreElement(inp: array<byte>, out: array<byte>, size: nat, elem: nat, ii: nat,
                      ghost t0: seq<byte>, ghost start: nat)
    requires inp != out && start <= ii < size
    requires Cells(inp[..], t0, out[..], size, elem, Reached(start, ii, 0, 0))
    modifies out
    ensures Cells(inp[..], t0, out[..], size, elem, Reached(start, ii + 1, 0, 0))
  {
    ghost var s := inp[..];
    CellsRenamed(s, t0, out[..], size, elem, Reached(start, ii, 0, 0), TailReached(start, ii, 0));
    for jj := 0 to elem
      invariant inp[..] == s && Cells(s, t0, out[..], size, elem, TailReached(start, ii, jj))
    {
      CellStored(s, t0, out[..], size, elem, ii, jj, TailReached(start, ii, jj), TailReached(start, ii, jj + 1));
      out[At(jj, size, ii)] := inp[At(ii, elem, jj)];
    }
    CellsRenamed(s, t0, out[..], size, elem, TailReached(start, ii, elem), Reached(start, ii + 1, 0, 0));
  }

  function TailReached(start: nat, ii: nat, jj: nat): (nat, nat) -> bool {
    (i, j) => start <= i < ii || (i == ii && j < jj)
  }

  /** Elements from `start` on; the columns of the earlier ones are left alone. */
  method TransByteElemRemainder(inp: array<byte>, out: array<byte>, size: nat, elem: nat, start: nat) returns (count: int)
    requires inp != out && inp.Length == out.Length == At(size, elem, 0)
    modifies out
    ensures start % 8 != 0 ==> count == NOT_MULTIPLE_OF_EIGHT && out[..] == old(out[..])
    ensures start % 8 == 0 ==>
              count == At(size, elem, 0) && Cells(inp[..], old(out[..]), out[..], size, elem, (i, j) => start <= i)
  {
    if start % 8 != 0 { return NOT_MULTIPLE_OF_EIGHT; }
    ghost var s, t0 := inp[..], out[..];
    CellsInitially(s, t0, size, elem);
    CellsRenamed(s, t0, out[..], size, elem, (i, j) => false, Reached(start, start, 0, 0));
    if size > start {
      var ii := start;
      while ii + 7 < size
        invariant start <= ii <= size && ii % 8 == 0
        invariant inp[..] == s && Cells(s, t0, out[..], size, elem, Reached(start, ii, 0, 0))
      {
        StoreEightElements(inp, out, size, elem, ii, t0, start);
        ii := ii + 8;
      }
      ii := size - size % 8;
      while ii < size
        invariant start <= ii <= size
        invariant inp[..] == s && Cells(s, t0, out[..], size, elem, Reached(start, ii, 0, 0))
      {
        StoreElement(inp, out, size, elem, ii, t0, start);
        ii := ii + 1;
      }
      CellsRenamed(s, t0, out[..], size, elem, Reached(start, size, 0, 0), (i, j) => start <= i);
    } else {
      CellsRenamed(s, t0, out[..], size, elem, (i, j) => false, (i, j) => start <= i);
    }
    count := At(size, elem, 0);
  }

  method TransByteElemScal(inp: array<byte>, out: array<byte>, size: nat, elem: nat) returns (count: int)
    requires inp != out && inp.Length == out.Length == At(size, elem, 0)
    modifies out
    ensures count == At(size, elem, 0) && BytesTransposed(inp[..], out[..], size, elem)
  {
    ghost var t0 := out[..];
    count := TransByteElemRemainder(inp, out, size, elem, 0);
    AllMoved(inp[..], t0, out[..], size, elem, (i, j) => 0 <= i);
  }

  lemma AllMoved(s: seq<byte>, t0: seq<byte>, t: seq<byte>, size: nat, elem: nat, done: (nat, nat) -> bool)
    requires |s| == |t| == At(size, elem, 0) && Cells(s, t0, t, size, elem, done)
    requires forall i, j :: 0 <= i < size && 0 <= j < elem ==> done(i, j)
    ensures BytesTransposed(s, t, size, elem)
  {
    AtArea(size, elem);
    forall i, j | 0 <= i < size && 0 <= j < elem ensures ByteMoved(s, t, size, elem, i, j) {
      assert Cell(s, t0, t, size, elem, i, j, done(i, j));
    }
  }

  // ------------------------------------------------------------------------------------------------
  // Transposing whole rows

  /** Row (i, j) of an lda x ldb array of rows of `width` bytes goes to row (j, i). */
  predicate RowCopied(s: seq<byte>, t: seq<byte>, lda: nat, ldb: nat, width: nat, i: nat, j: nat) {
    forall b :: 0 <= b < width ==> RowByteCopied(s, t, lda, ldb, width, i, j, b)
  }

  predicate RowByteCopied(s: seq<byte>, t: seq<byte>, lda: nat, ldb: nat, width: nat, i: nat, j: nat, b: nat) {
    && At(At(j, lda, i), width, b) < |t| && At(At(i, ldb, j), width, b) < |s|
    && t[At(At(j, lda, i), width, b)] == s[At(At(i, ldb, j), width, b)]
  }

  /** One row is copied, all other rows are kept. */
  method CopyRow(inp: array<byte>, out: array<byte>, from: nat, to: nat, rows: nat, width: nat)
    requires inp != out && inp.Length == out.Length == At(rows, width, 0) && from < rows && to < rows
    modifies out
    ensures forall b :: 0 <= b < width ==>
                          && At(to, width, b) < out.Length && At(from, width, b) < inp.Length
                          && out[At(to, width, b)] == inp[At(from, width, b)]
    ensures forall r, b :: 0 <= r < rows && 0 <= b < width && r != to ==> Kept(old(out[..]), out[..], width, r, b)
  {
    ghost var s, t0 := inp[..], out[..];
    RowsInside(rows, width);
    for b := 0 to width
      invariant inp[..] == s
      invariant forall b' :: 0 <= b' < b ==> out[At(to, width, b')] == s[At(from, width, b')]
      invariant forall r, b' :: 0 <= r < rows && 0 <= b' < width && r != to ==> Kept(t0, out[..], width, r, b')
    {
      ghost var t := out[..];
      out[At(to, width, b)] := inp[At(from, width, b)];
      assert out[..] == t[At(to, width, b) := s[At(from, width, b)]];
      forall b' | 0 <= b' < b ensures out[At(to, width, b')] == s[At(from, width, b')] {
        StoreKeeps(t, width, to, b, s[At(from, width, b)], to, b');
      }
      forall r, b' | 0 <= r < rows && 0 <= b' < width && r != to ensures Kept(t0, out[..], width, r, b') {
        assert Kept(t0, t, width, r, b');
        StoreKeeps(t, width, to, b, s[At(from, width, b)], r, b');
      }
    }
  }

  lemma RowsInside(rows: nat, width: nat)
    ensures forall r, b :: 0 <= r < rows && 0 <= b < width ==> At(r, width, b) < At(rows, width, 0)
  {
    forall r, b | 0 <= r < rows && 0 <= b < width ensures At(r, width, b) < At(rows, width, 0) {
      AtBound(r, rows, width, b);
    }
  }

  predicate RowsCopied(s: seq<byte>, t: seq<byte>, lda: nat, ldb: nat, width: nat, done: (nat, nat) -> bool) {
    forall i, j :: 0 <= i < lda && 0 <= j < ldb && done(i, j) ==> RowCopied(s, t, lda, ldb, width, i, j)
  }

  lemma RowCopyKeeps(s: seq<byte>, t: seq<byte>, u: seq<byte>, lda: nat, ldb: nat, width: nat, ii: nat, jj: nat,
                     done: (nat, nat) -> bool, after: (nat, nat) -> bool)
    requires |s| == |t| == |u| == At(At(lda, ldb, 0), width, 0) && ii < lda && jj < ldb
    requires RowsCopied(s, t, lda, ldb, width, done)
    requires RowCopied(s, u, lda, ldb, width, ii, jj)
    requires forall r, b :: 0 <= r < At(lda, ldb, 0) && 0 <= b < width && r != At(jj, lda, ii) ==> Kept(t, u, width, r, b)
    requires forall i, j :: 0 <= i < lda && 0 <= j < ldb && (i != ii || j != jj) ==> after(i, j) == done(i, j)
    ensures RowsCopied(s, u, lda, ldb, width, after)
  {
    AtArea(lda, ldb);
    forall i, j | 0 <= i < lda && 0 <= j < ldb && after(i, j) ensures RowCopied(s, u, lda, ldb, width, i, j) {
      if i != ii || j != jj {
        assert RowCopied(s, t, lda, ldb, width, i, j);
        AtBound(j, ldb, lda, i);
        if At(j, lda, i) == At(jj, lda, ii) { AtInjective(j, i, jj, ii, lda); }
        forall b | 0 <= b < width ensures RowByteCopied(s, u, lda, ldb, width, i, j, b) {
          assert RowByteCopied(s, t, lda, ldb, width, i, j, b);
          assert Kept(t, u, width, At(j, lda, i), b);
        }
      }
    }
  }

  /** Rows up to ii are done, and jj of row ii. */
  function RowsReached(ii: nat, jj: nat): (nat, nat) -> bool {
    (i, j) => i < ii || (i == ii && j < jj)
  }

  /** General transpose of an lda x ldb array whose elements are `width` bytes wide. */
  method TransElem(inp: array<byte>, out: array<byte>, lda: nat, ldb: nat, width: nat) returns (count: int)
    requires inp != out && inp.Length == out.Length == At(At(lda, ldb, 0), width, 0)
    modifies out
    ensures count == inp.Length
    ensures RowsCopied(inp[..], out[..], lda, ldb, width, (i, j) => true)
  {
    ghost var s := inp[..];
    AtArea(lda, ldb);
    for ii := 0 to lda
      invariant inp[..] == s && RowsCopied(s, out[..], lda, ldb, width, RowsReached(ii, 0))
    {
      for jj := 0 to ldb
        invariant inp[..] == s && RowsCopied(s, out[..], lda, ldb, width, RowsReached(ii, jj))
      {
        ghost var t := out[..];
        AtBound(ii, lda, ldb, jj);
        AtBound(jj, ldb, lda, ii);
        CopyRow(inp, out, At(ii, ldb, jj), At(jj, lda, ii), At(lda, ldb, 0), width);
        forall b | 0 <= b < width ensures RowByteCopied(s, out[..], lda, ldb, width, ii, jj, b) {
          AtBound(At(jj, lda, ii), At(lda, ldb, 0), width, b);
        }
        RowCopyKeeps(s, t, out[..], lda, ldb, width, ii, jj, RowsReached(ii, jj), RowsReached(ii, jj + 1));
      }
      assert forall i, j :: 0 <= i < lda && 0 <= j < ldb ==> RowsReached(ii, ldb)(i, j) == RowsReached(ii + 1, 0)(i, j);
    }
    count := inp.Length;
  }

  /** Rows of size/8 bytes within groups of eight. */
  method TransBitrowEight(inp: array<byte>, out: array<byte>, size: nat, elem: nat) returns (count: int)
    requires inp != out && inp.Length == out.Length == At(size, elem, 0)
    modifies out
    ensures size % 8 != 0 ==> count == NOT_MULTIPLE_OF_EIGHT
    ensures size % 8 == 0 ==> count == inp.Length && RowsTransposed(inp[..], out[..], size / 8, elem)
  {
    if size % 8 != 0 { return NOT_MULTIPLE_OF_EIGHT; }
    BufferArea(size / 8, elem);
    count := TransElem(inp, out, 8, elem, size / 8);
    RowsAreTransposed(inp[..], out[..], size / 8, elem);
  }

  lemma RowsAreTransposed(s: seq<byte>, t: seq<byte>, nb: nat, elem: nat)
    requires |s| == |t| == At(At(8, elem, 0), nb, 0)
    requires RowsCopied(s, t, 8, elem, nb, (i, j) => true)
    ensures RowsTransposed(s, t, nb, elem)
  {
    forall k, j, b | 0 <= k < 8 && 0 <= j < elem && 0 <= b < nb ensures RowMoved(s, t, nb, elem, k, j, b) {
      assert RowCopied(s, t, 8, elem, nb, k, j);
      assert RowByteCopied(s, t, 8, elem, nb, k, j, b);
    }
  }

  lemma NestedArea(elem: nat, nb: nat)
    ensures At(At(8, elem, 0), nb, 0) == 8 * At(elem, nb, 0)
  {
    hide At;
    AtNested(8, elem, 0, nb, 0);
    AtFirstRow(nb);
    AtIsProduct(8, At(elem, nb, 0), 0);
  }

  lemma AtFirstRow(width: nat)
    ensures At(0, width, 0) == 0
  {
  }

  /** The buffer size, counted three ways. */
  lemma BufferArea(nb: nat, elem: nat)
    ensures At(8 * nb, elem, 0) == At(At(8, elem, 0), nb, 0) == 8 * At(elem, nb, 0)
    ensures At(8 * nb, elem, 0) == At(8 * elem, nb, 0) == At(nb, 8 * elem, 0)
  {
    hide At;
    AtArea(elem, nb);
    AtTimesEight(elem, nb, 0, 0);
    AtArea(elem, 8 * nb);
    AtTimesEight(nb, elem, 0, 0);
    AtArea(nb, 8 * elem);
    NestedArea(elem, nb);
  }

  // ------------------------------------------------------------------------------------------------
  // The shuffle

  /** Transpose bits within elements: the three passes, through a temporary buffer. */
  method TransBitElemScal(inp: array<byte>, out: array<byte>, size: nat, elem: nat) returns (count: int)
    requires inp != out && inp.Length == out.Length == At(size, elem, 0)
    modifies out
    ensures size % 8 != 0 ==> count == NOT_MULTIPLE_OF_EIGHT && out[..] == old(out[..])
    ensures size % 8 == 0 ==>
              count == At(size, elem, 0) && Shuffled(inp[..], out[..], size / 8, elem) && out[..] == ShuffleOf(inp[..], size / 8, elem)
  {
    if size % 8 != 0 { return NOT_MULTIPLE_OF_EIGHT; }
    BufferArea(size / 8, elem);
    var tmp := new byte[At(size, elem, 0)];
    ghost var s := inp[..];
    count := TransByteElemScal(inp, out, size, elem);
    if count < 0 { return; }
    ghost var t1 := out[..];
    count := TransBitByteScal(out, tmp, size, elem);
    if count < 0 { return; }
    ghost var t2 := tmp[..];
    count := TransBitrowEight(tmp, out, size, elem);
    ThreePassesShuffle(s, t1, t2, out[..], size / 8, elem);
    ShuffleOfShuffles(s, size / 8, elem);
    ShuffleIsUnique(s, out[..], ShuffleOf(s, size / 8, elem), size / 8, elem);
  }

  // ------------------------------------------------------------------------------------------------
  // The inverse

  /** Byte ii of row 8jj+kk goes to octet jj of block ii: a transpose of an array of 8*elem rows of size/8 bytes. */
  method TransByteBitrowScal(inp: array<byte>, out: array<byte>, size: nat, elem: nat) returns (count: int)
    requires inp != out && inp.Length == out.Length == At(size, elem, 0)
    modifies out
    ensures size % 8 != 0 ==> count == NOT_MULTIPLE_OF_EIGHT && out[..] == old(out[..])
    ensures size % 8 == 0 ==> count == At(size, elem, 0) && RowsGathered(inp[..], out[..], size / 8, elem)
  {
    var nb := size / 8;
    if size % 8 != 0 { return NOT_MULTIPLE_OF_EIGHT; }
    ghost var s, t0 := inp[..], out[..];
    BufferArea(nb, elem);
    CellsInitially(s, t0, 8 * elem, nb);
    CellsRenamed(s, t0, out[..], 8 * elem, nb, (i, j) => false, Reached(0, 0, 0, 0));
    for jj := 0 to elem
      invariant inp[..] == s && Cells(s, t0, out[..], 8 * elem, nb, Reached(0, 8 * jj, 0, 0))
    {
      for ii := 0 to nb
        invariant inp[..] == s && Cells(s, t0, out[..], 8 * elem, nb, Reached(0, 8 * jj, ii, 0))
      {
        for kk := 0 to 8
          invariant inp[..] == s && Cells(s, t0, out[..], 8 * elem, nb, Reached(0, 8 * jj, ii, kk))
        {
          CellStored(s, t0, out[..], 8 * elem, nb, 8 * jj + kk, ii, Reached(0, 8 * jj, ii, kk), Reached(0, 8 * jj, ii, kk + 1));
          out[At(ii, 8 * elem, 8 * jj + kk)] := inp[At(8 * jj + kk, nb, ii)];
        }
        CellsRenamed(s, t0, out[..], 8 * elem, nb, Reached(0, 8 * jj, ii, 8), Reached(0, 8 * jj, ii + 1, 0));
      }
      CellsRenamed(s, t0, out[..], 8 * elem, nb, Reached(0, 8 * jj, nb, 0), Reached(0, 8 * (jj + 1), 0, 0));
    }
    AllMoved(s, t0, out[..], 8 * elem, nb, Reached(0, 8 * elem, 0, 0));
    BytesAreGathered(s, out[..], nb, elem);
    count := At(size, elem, 0);
  }

  lemma BytesAreGathered(s: seq<byte>, t: seq<byte>, nb: nat, elem: nat)
    requires BytesTransposed(s, t, 8 * elem, nb)
    ensures RowsGathered(s, t, nb, elem)
  {
    BufferArea(nb, elem);
    forall b, j, k | 0 <= b < nb && 0 <= j < elem && 0 <= k < 8 ensures ByteGathered(s, t, nb, elem, b, j, k) {
      assert ByteMoved(s, t, 8 * elem, nb, 8 * j + k, b);
    }
  }

  /** Octet jj of block b: load, transpose, and give one byte to each of the eight elements of the block. */
  method SpreadOctet(inp: array<byte>, out: array<byte>, nb: nat, elem: nat, b: nat, j: nat)
    requires inp != out && inp.Length == out.Length == At(8 * nb, elem, 0) && b < nb && j < elem
    modifies out
    ensures forall c :: 0 <= c < 8 ==> OctetSpread(inp[..], out[..], nb, elem, b, j, c)
    ensures forall r, i :: 0 <= r < 8 * nb && 0 <= i < elem && !(8 * b <= r < 8 * b + 8 && i == j) ==>
                             Kept(old(out[..]), out[..], elem, r, i)
  {
    hide TransBit8x8, LoadQuad, LowByte, ShiftedBy, IsColumn, Quad;
    ghost var s, t0 := inp[..], out[..];
    OctetInside(nb, elem, b, j);
    var at := At(b, 8 * elem, 8 * j);
    var x0 := TransBit8x8(LoadQuad(inp[..], at));
    var x := x0;
    RowsInside(8 * nb, elem);
    ShiftedByNone(x0);
    for kk := 0 to 8
      invariant x == ShiftedBy(x0, kk)
      invariant inp[..] == s
      invariant forall c :: 0 <= c < kk ==> OctetSpread(s, out[..], nb, elem, b, j, c)
      invariant forall r, i :: 0 <= r < 8 * nb && 0 <= i < elem && !(8 * b <= r < 8 * b + 8 && i == j) ==>
                                 Kept(t0, out[..], elem, r, i)
    {
      ghost var t := out[..];
      OctetColumn(s, at, kk);
      ShiftOnce(x0, kk);
      out[At(8 * b + kk, elem, j)] := LowByte(x);
      x := x >> 8;
      assert out[..] == t[At(8 * b + kk, elem, j) := ByteOf(x0, kk)];
      SpreadStored(s, t0, t, nb, elem, b, j, kk, ByteOf(x0, kk));
    }
  }

  lemma OctetInside(nb: nat, elem: nat, b: nat, j: nat)
    requires b < nb && j < elem
    ensures At(b, 8 * elem, 8 * j) + 8 <= At(8 * nb, elem, 0)
  {
    BufferArea(nb, elem);
    AtBound(b, nb, 8 * elem, 8 * j + 7);
    AtColumn(b, 8 * elem, 8 * j, 7);
  }

  lemma SpreadStored(s: seq<byte>, t0: seq<byte>, t: seq<byte>, nb: nat, elem: nat, b: nat, j: nat, kk: nat, v: byte)
    requires |s| == |t| == |t0| == At(8 * nb, elem, 0) && b < nb && j < elem && kk < 8
    requires At(b, 8 * elem, 8 * j) + 8 <= |s| && At(8 * b + kk, elem, j) < |t|
    requires IsColumn(v, s, At(b, 8 * elem, 8 * j), kk)
    requires forall c :: 0 <= c < kk ==> OctetSpread(s, t, nb, elem, b, j, c)
    requires forall r, i :: 0 <= r < 8 * nb && 0 <= i < elem && !(8 * b <= r < 8 * b + 8 && i == j) ==> Kept(t0, t, elem, r, i)
    ensures var u := t[At(8 * b + kk, elem, j) := v];
            && (forall c :: 0 <= c < kk + 1 ==> OctetSpread(s, u, nb, elem, b, j, c))
            && (forall r, i :: 0 <= r < 8 * nb && 0 <= i < elem && !(8 * b <= r < 8 * b + 8 && i == j) ==> Kept(t0, u, elem, r, i))
  {
    hide IsColumn;
    var u := t[At(8 * b + kk, elem, j) := v];
    forall c | 0 <= c < kk ensures OctetSpread(s, u, nb, elem, b, j, c) {
      assert OctetSpread(s, t, nb, elem, b, j, c);
      StoreKeeps(t, elem, 8 * b + kk, j, v, 8 * b + c, j);
    }
    forall r, i | 0 <= r < 8 * nb && 0 <= i < elem && !(8 * b <= r < 8 * b + 8 && i == j) ensures Kept(t0, u, elem, r, i) {
      assert Kept(t0, t, elem, r, i);
      StoreKeeps(t, elem, 8 * b + kk, j, v, r, i);
    }
  }

  /** Which octets are done: all those of columns below jj, and in column jj those of the first b blocks. */
  predicate Spread(s: seq<byte>, t: seq<byte>, nb: nat, elem: nat, jj: nat, b: nat) {
    forall b', j, c :: 0 <= b' < nb && 0 <= j < elem && 0 <= c < 8 && (j < jj || (j == jj && b' < b)) ==>
                         OctetSpread(s, t, nb, elem, b', j, c)
  }

  lemma SpreadKeeps(s: seq<byte>, t: seq<byte>, u: seq<byte>, nb: nat, elem: nat, jj: nat, b: nat)
    requires b < nb && jj < elem && Spread(s, t, nb, elem, jj, b)
    requires forall c :: 0 <= c < 8 ==> OctetSpread(s, u, nb, elem, b, jj, c)
    requires forall r, i :: 0 <= r < 8 * nb && 0 <= i < elem && !(8 * b <= r < 8 * b + 8 && i == jj) ==> Kept(t, u, elem, r, i)
    ensures Spread(s, u, nb, elem, jj, b + 1)
  {
    hide IsColumn;
    forall b', j, c | 0 <= b' < nb && 0 <= j < elem && 0 <= c < 8 && (j < jj || (j == jj && b' < b + 1))
      ensures OctetSpread(s, u, nb, elem, b', j, c)
    {
      if b' != b || j != jj {
        assert OctetSpread(s, t, nb, elem, b', j, c);
        assert Kept(t, u, elem, 8 * b' + c, j);
      }
    }
  }

  /** Shuffle bits within the bytes of eight-element blocks. */
  method ShuffleBitEightelemScal(inp: array<byte>, out: array<byte>, size: nat, elem: nat) returns (count: int)
    requires inp != out && inp.Length == out.Length == At(size, elem, 0)
    modifies out
    ensures size % 8 != 0 ==> count == NOT_MULTIPLE_OF_EIGHT && out[..] == old(out[..])
    ensures size % 8 == 0 ==> count == At(size, elem, 0) && OctetsSpread(inp[..], out[..], size / 8, elem)
  {
    if size % 8 != 0 { return NOT_MULTIPLE_OF_EIGHT; }
    ghost var s := inp[..];
    var nb := size / 8;
    for jj := 0 to elem
      invariant inp[..] == s && Spread(s, out[..], nb, elem, jj, 0)
    {
      for b := 0 to nb
        invariant inp[..] == s && Spread(s, out[..], nb, elem, jj, b)
      {
        ghost var t := out[..];
        SpreadOctet(inp, out, nb, elem, b, jj);
        assert inp[..] == s;
        SpreadKeeps(s, t, out[..], nb, elem, jj, b);
      }
    }
    count := At(size, elem, 0);
  }

  /** Untranspose bits within elements: two passes, through a temporary buffer. */
  method UntransBitElemScal(inp: array<byte>, out: array<byte>, size: nat, elem: nat) returns (count: int)
    requires inp != out && inp.Length == out.Length == At(size, elem, 0)
    modifies out
    ensures size % 8 != 0 ==> count == NOT_MULTIPLE_OF_EIGHT && out[..] == old(out[..])
    ensures size % 8 == 0 ==> count == At(size, elem, 0) && out[..] == UnshuffleOf(inp[..], size / 8, elem)
  {
    if size % 8 != 0 { return NOT_MULTIPLE_OF_EIGHT; }
    var tmp := new byte[At(size, elem, 0)];
    ghost var t := inp[..];
    count := TransByteBitrowScal(inp, tmp, size, elem);
    if count < 0 { return; }
    ghost var u1 := tmp[..];
    count := ShuffleBitEightelemScal(tmp, out, size, elem);
    TwoPassesUnshuffle(t, u1, out[..], size / 8, elem);
  }
}
