/**
  Halving an RFI mask row: a bit of the result is the AND of two adjacent bits.  The reference kernel goes bit by
  bit; the fast one works on 512 bits at a time with word shifts, a byte shuffle and lane permutations.
*/
module RfiMask {
  import opened BitMatrix
  import Telescope

  // ------------------------------------------------------------------------------------------------
  // What both compute

  predicate Pair(b: byte, k: nat)
    requires k < 4
  {
    Bit(b, 2 * k) && Bit(b, 2 * k + 1)
  }

  /** Eight pairs from two bytes. */
  function Halved(b0: byte, b1: byte): byte {
    Pack(Pair(b0, 0), Pair(b0, 1), Pair(b0, 2), Pair(b0, 3), Pair(b1, 0), Pair(b1, 1), Pair(b1, 2), Pair(b1, 3))
  }

  function HalfByte(src: seq<byte>, q: nat): byte
    requires 2 * q + 1 < |src|
  {
    Halved(src[2 * q], src[2 * q + 1])
  }

  lemma HalvedBit(b0: byte, b1: byte, c: nat)
    requires c < 8
    ensures Bit(Halved(b0, b1), c) == if c < 4 then Pair(b0, c) else Pair(b1, c - 4)
  {
    hide Pack, Bit, Pair;
    PackedBit(Pair(b0, 0), Pair(b0, 1), Pair(b0, 2), Pair(b0, 3), Pair(b1, 0), Pair(b1, 1), Pair(b1, 2), Pair(b1, 3), c);
  }

  // ------------------------------------------------------------------------------------------------
  // The reference kernel

  function PairMask(k: nat): byte
    requires k < 4
  {
    if k == 0 then 3 else if k == 1 then 12 else if k == 2 then 48 else 192
  }

  lemma PairMaskTests(x: byte, k: nat)
    requires k < 4
    ensures (x & PairMask(k) == PairMask(k)) == Pair(x, k)
  {
    match k
    case 0 => assert (x & 3 == 3) == (x & 1 != 0 && x & 2 != 0);
    case 1 => assert (x & 12 == 12) == (x & 4 != 0 && x & 8 != 0);
    case 2 => assert (x & 48 == 48) == (x & 16 != 0 && x & 32 != 0);
    case _ => assert (x & 192 == 192) == (x & 64 != 0 && x & 128 != 0);
  }

  function SetBit(b: byte, k: nat): byte
    requires k < 8
  {
    if k == 0 then b | 1 else if k == 1 then b | 2 else if k == 2 then b | 4 else if k == 3 then b | 8
    else if k == 4 then b | 16 else if k == 5 then b | 32 else if k == 6 then b | 64 else b | 128
  }

  lemma SetBits(b: byte)
    ensures (b | 1) & 1 != 0 && (b | 1) & 2 == b & 2 && (b | 1) & 4 == b & 4 && (b | 1) & 8 == b & 8
            && (b | 1) & 16 == b & 16 && (b | 1) & 32 == b & 32 && (b | 1) & 64 == b & 64 && (b | 1) & 128 == b & 128
    ensures (b | 2) & 2 != 0 && (b | 2) & 1 == b & 1 && (b | 2) & 4 == b & 4 && (b | 2) & 8 == b & 8
            && (b | 2) & 16 == b & 16 && (b | 2) & 32 == b & 32 && (b | 2) & 64 == b & 64 && (b | 2) & 128 == b & 128
    ensures (b | 4) & 4 != 0 && (b | 4) & 1 == b & 1 && (b | 4) & 2 == b & 2 && (b | 4) & 8 == b & 8
            && (b | 4) & 16 == b & 16 && (b | 4) & 32 == b & 32 && (b | 4) & 64 == b & 64 && (b | 4) & 128 == b & 128
    ensures (b | 8) & 8 != 0 && (b | 8) & 1 == b & 1 && (b | 8) & 2 == b & 2 && (b | 8) & 4 == b & 4
            && (b | 8) & 16 == b & 16 && (b | 8) & 32 == b & 32 && (b | 8) & 64 == b & 64 && (b | 8) & 128 == b & 128
    ensures (b | 16) & 16 != 0 && (b | 16) & 1 == b & 1 && (b | 16) & 2 == b & 2 && (b | 16) & 4 == b & 4
            && (b | 16) & 8 == b & 8 && (b | 16) & 32 == b & 32 && (b | 16) & 64 == b & 64 && (b | 16) & 128 == b & 128
    ensures (b | 32) & 32 != 0 && (b | 32) & 1 == b & 1 && (b | 32) & 2 == b & 2 && (b | 32) & 4 == b & 4
            && (b | 32) & 8 == b & 8 && (b | 32) & 16 == b & 16 && (b | 32) & 64 == b & 64 && (b | 32) & 128 == b & 128
    ensures (b | 64) & 64 != 0 && (b | 64) & 1 == b & 1 && (b | 64) & 2 == b & 2 && (b | 64) & 4 == b & 4
            && (b | 64) & 8 == b & 8 && (b | 64) & 16 == b & 16 && (b | 64) & 32 == b & 32 && (b | 64) & 128 == b & 128
    ensures (b | 128) & 128 != 0 && (b | 128) & 1 == b & 1 && (b | 128) & 2 == b & 2 && (b | 128) & 4 == b & 4
            && (b | 128) & 8 == b & 8 && (b | 128) & 16 == b & 16 && (b | 128) & 32 == b & 32 && (b | 128) & 64 == b & 64
  {
  }

  lemma SetBitOnly(b: byte, k: nat, c: nat)
    requires k < 8 && c < 8
    ensures Bit(SetBit(b, k), c) == (c == k || Bit(b, c))
  {
    SetBits(b);
  }

  /** Pair i of the source row. */
  predicate SourcePair(src: seq<byte>, i: nat)
    requires i / 4 < |src|
  {
    Pair(src[i / 4], i % 4)
  }

  /** Bits below i are set as they should be, the others are still clear. */
  predicate BitsUpTo(src: seq<byte>, dst: seq<byte>, i: nat) {
    |src| == 2 * |dst| && forall j :: 0 <= j < 8 * |dst| ==> DestinationBit(src, dst, j, i)
  }

  predicate DestinationBit(src: seq<byte>, dst: seq<byte>, j: nat, i: nat) {
    j / 8 < |dst| && j / 4 < |src| && Bit(dst[j / 8], j % 8) == (j < i && SourcePair(src, j))
  }

  /** Bit by bit, into cleared bytes. */
  method HalveSlow(src: seq<byte>, dst: array<byte>)
    requires |src| == 2 * dst.Length
    modifies dst
    ensures forall q :: 0 <= q < dst.Length ==> dst[q] == HalfByte(src, q)
  {
    hide Bit, Pair, SetBit, PairMask, HalfByte;
    forall q | 0 <= q < dst.Length { dst[q] := 0; }
    AllClear(src, dst[..]);
    for i := 0 to 8 * dst.Length
      invariant BitsUpTo(src, dst[..], i)
    {
      var idst, bdst := i / 8, i % 8;
      var isrc, bsrc := (2 * i) / 8, (2 * i) % 8;
      assert isrc == i / 4 && bsrc == 2 * (i % 4);
      var x := src[isrc];
      var y := PairMask(bsrc / 2);
      PairMaskTests(x, bsrc / 2);
      ghost var before := dst[..];
      if x & y == y {
        dst[idst] := SetBit(dst[idst], bdst);
      }
      BitSet(src, before, dst[..], i);
    }
    RowIsHalved(src, dst[..]);
  }

  lemma AllClear(src: seq<byte>, dst: seq<byte>)
    requires |src| == 2 * |dst| && forall q :: 0 <= q < |dst| ==> dst[q] == 0
    ensures BitsUpTo(src, dst, 0)
  {
    forall j | 0 <= j < 8 * |dst| ensures DestinationBit(src, dst, j, 0) {
      assert dst[j / 8] == 0;
    }
  }

  lemma BitSet(src: seq<byte>, before: seq<byte>, after: seq<byte>, i: nat)
    requires BitsUpTo(src, before, i) && i < 8 * |before| && i / 4 < |src|
    requires after == if SourcePair(src, i) then before[i / 8 := SetBit(before[i / 8], i % 8)] else before
    ensures BitsUpTo(src, after, i + 1)
  {
    hide Bit, SourcePair, SetBit;
    var next := i + 1;
    forall j | 0 <= j < 8 * |after| ensures DestinationBit(src, after, j, next) {
      assert DestinationBit(src, before, j, i);
      if j / 8 == i / 8 {
        SetBitOnly(before[i / 8], i % 8, j % 8);
        assert j == i <==> j % 8 == i % 8;
      }
    }
  }

  lemma RowIsHalved(src: seq<byte>, dst: seq<byte>)
    requires BitsUpTo(src, dst, 8 * |dst|)
    ensures forall q :: 0 <= q < |dst| ==> dst[q] == HalfByte(src, q)
  {
    hide Bit, Halved;
    var all := 8 * |dst|;
    forall q | 0 <= q < |dst| ensures dst[q] == HalfByte(src, q) {
      forall c | 0 <= c < 8 ensures Bit(dst[q], c) == Bit(HalfByte(src, q), c) {
        var j := 8 * q + c;
        assert DestinationBit(src, dst, j, all);
        HalvedBit(src[2 * q], src[2 * q + 1], c);
      }
      BitsAreTheByte(dst[q], HalfByte(src, q));
    }
  }

  // ------------------------------------------------------------------------------------------------
  // The fast kernel, one 32-bit word

  /** Pairs are ANDed and squeezed together: eight bits in byte 0, eight in byte 2, junk in bytes 1 and 3. */
  function Squeeze(w: bv32): bv32 {
    var x1 := (w & (w >> 1)) & 0x55555555;
    var x2 := (x1 | (x1 >> 1)) & 0x33333333;
    var x3 := (x2 | (x2 >> 2)) & 0x0F0F0F0F;
    x3 | (x3 >> 4)
  }

  function Word(b0: byte, b1: byte, b2: byte, b3: byte): bv32 {
    (b0 as bv32) | ((b1 as bv32) << 8) | ((b2 as bv32) << 16) | ((b3 as bv32) << 24)
  }

  function Byte0(x: bv32): byte { (x & 0xFF) as byte }
  function Byte2(x: bv32): byte { ((x >> 16) & 0xFF) as byte }

  lemma SqueezeBits(b0: byte, b1: byte, b2: byte, b3: byte)
    ensures var y := Byte0(Squeeze(Word(b0, b1, b2, b3)));
            && (y & 1 != 0) == (b0 & 1 != 0 && b0 & 2 != 0) && (y & 2 != 0) == (b0 & 4 != 0 && b0 & 8 != 0)
            && (y & 4 != 0) == (b0 & 16 != 0 && b0 & 32 != 0) && (y & 8 != 0) == (b0 & 64 != 0 && b0 & 128 != 0)
            && (y & 16 != 0) == (b1 & 1 != 0 && b1 & 2 != 0) && (y & 32 != 0) == (b1 & 4 != 0 && b1 & 8 != 0)
            && (y & 64 != 0) == (b1 & 16 != 0 && b1 & 32 != 0) && (y & 128 != 0) == (b1 & 64 != 0 && b1 & 128 != 0)
    ensures var y := Byte2(Squeeze(Word(b0, b1, b2, b3)));
            && (y & 1 != 0) == (b2 & 1 != 0 && b2 & 2 != 0) && (y & 2 != 0) == (b2 & 4 != 0 && b2 & 8 != 0)
            && (y & 4 != 0) == (b2 & 16 != 0 && b2 & 32 != 0) && (y & 8 != 0) == (b2 & 64 != 0 && b2 & 128 != 0)
            && (y & 16 != 0) == (b3 & 1 != 0 && b3 & 2 != 0) && (y & 32 != 0) == (b3 & 4 != 0 && b3 & 8 != 0)
            && (y & 64 != 0) == (b3 & 16 != 0 && b3 & 32 != 0) && (y & 128 != 0) == (b3 & 64 != 0 && b3 & 128 != 0)
  {
  }

  lemma SqueezeHalves(b0: byte, b1: byte, b2: byte, b3: byte)
    ensures Byte0(Squeeze(Word(b0, b1, b2, b3))) == Halved(b0, b1)
    ensures Byte2(Squeeze(Word(b0, b1, b2, b3))) == Halved(b2, b3)
  {
    hide Squeeze, Word, Byte0, Byte2, Pack;
    SqueezeBits(b0, b1, b2, b3);
    var x := Squeeze(Word(b0, b1, b2, b3));
    SameHalf(Byte0(x), b0, b1);
    SameHalf(Byte2(x), b2, b3);
  }

  lemma SameHalf(y: byte, b0: byte, b1: byte)
    requires (y & 1 != 0) == (b0 & 1 != 0 && b0 & 2 != 0) && (y & 2 != 0) == (b0 & 4 != 0 && b0 & 8 != 0)
    requires (y & 4 != 0) == (b0 & 16 != 0 && b0 & 32 != 0) && (y & 8 != 0) == (b0 & 64 != 0 && b0 & 128 != 0)
    requires (y & 16 != 0) == (b1 & 1 != 0 && b1 & 2 != 0) && (y & 32 != 0) == (b1 & 4 != 0 && b1 & 8 != 0)
    requires (y & 64 != 0) == (b1 & 16 != 0 && b1 & 32 != 0) && (y & 128 != 0) == (b1 & 64 != 0 && b1 & 128 != 0)
    ensures y == Halved(b0, b1)
  {
    hide Halved;
    forall c | 0 <= c < 8 ensures Bit(y, c) == Bit(Halved(b0, b1), c) {
      HalvedBit(b0, b1, c);
      match c case 0 => case 1 => case 2 => case 3 => case 4 => case 5 => case 6 => case _ =>
    }
    BitsAreTheByte(y, Halved(b0, b1));
  }

  // ------------------------------------------------------------------------------------------------
  // Registers of 256 bits

  /** Eight words; byte m of the register is byte m%4 of word m/4. */
  type Words = seq<bv32>

  /** Every word of 32 bytes, squeezed. */
  function SqueezedWord(s: seq<byte>, at: nat, w: nat): bv32
    requires at + 4 * w + 3 < |s|
  {
    Squeeze(Word(s[at + 4 * w], s[at + 4 * w + 1], s[at + 4 * w + 2], s[at + 4 * w + 3]))
  }

  function SqueezeRegister(s: seq<byte>, at: nat): (r: Words)
    requires at + 32 <= |s|
    ensures |r| == 8 && forall w :: 0 <= w < 8 ==> r[w] == SqueezedWord(s, at, w)
  {
    seq(8, w requires 0 <= w < 8 => SqueezedWord(s, at, w))
  }

  /** The byte shuffle: in each 128-bit lane, the even bytes, twice over. */
  function EvenByte(r: Words, m: nat): byte
    requires |r| == 8 && m < 32
  {
    var w := 4 * (m / 16) + m % 8 / 2;
    if m % 2 == 0 then Byte0(r[w]) else Byte2(r[w])
  }

  function ShuffleEven(r: Words): (t: seq<byte>)
    requires |r| == 8
    ensures |t| == 32 && forall m :: 0 <= m < 32 ==> t[m] == EvenByte(r, m)
  {
    seq(32, m requires 0 <= m < 32 => EvenByte(r, m))
  }

  /** High lane of x, then low lane of y. */
  function PermuteLanes(x: seq<byte>, y: seq<byte>): (z: seq<byte>)
    requires |x| == |y| == 32
    ensures |z| == 32
  {
    x[16..] + y[..16]
  }

  /** Words `from` to `to` from x, the others from z. */
  function BlendWords(z: seq<byte>, x: seq<byte>, from: nat, to: nat): (r: seq<byte>)
    requires |z| == |x| == 32 && from <= to <= 8
    ensures |r| == 32
  {
    z[..4 * from] + x[4 * from..4 * to] + z[4 * to..]
  }

  /** 64 bytes in, 32 bytes out. */
  function Halve512(s: seq<byte>, at: nat): (z: seq<byte>)
    requires at + 64 <= |s|
    ensures |z| == 32
  {
    var x := ShuffleEven(SqueezeRegister(s, at));
    var y := ShuffleEven(SqueezeRegister(s, at + 32));
    var z := PermuteLanes(x, y);
    BlendWords(BlendWords(z, x, 0, 2), y, 6, 8)
  }

  lemma SqueezedWordHalves(s: seq<byte>, at: nat, w: nat)
    requires at + 4 * w + 3 < |s|
    ensures Byte0(SqueezedWord(s, at, w)) == Halved(s[at + 4 * w], s[at + 4 * w + 1])
    ensures Byte2(SqueezedWord(s, at, w)) == Halved(s[at + 4 * w + 2], s[at + 4 * w + 3])
  {
    hide Squeeze, Word, Byte0, Byte2, Halved;
    SqueezeHalves(s[at + 4 * w], s[at + 4 * w + 1], s[at + 4 * w + 2], s[at + 4 * w + 3]);
  }

  /** Byte j of either half of a lane comes from word j/2 of the lane. */
  lemma EvenByteAt(r: Words, lane: nat, half: nat, j: nat)
    requires |r| == 8 && lane < 2 && half < 2 && j < 8
    ensures EvenByte(r, 16 * lane + 8 * half + j)
            == if j % 2 == 0 then Byte0(r[4 * lane + j / 2]) else Byte2(r[4 * lane + j / 2])
  {
    hide Byte0, Byte2;
    var m := 16 * lane + 8 * half + j;
    assert m / 16 == lane && m % 8 == j && m % 2 == j % 2;
  }

  /** Each half of each lane holds the lane's eight halved bytes. */
  lemma SqueezedEven(s: seq<byte>, at: nat, lane: nat, half: nat, j: nat)
    requires at + 32 <= |s| && lane < 2 && half < 2 && j < 8
    ensures ShuffleEven(SqueezeRegister(s, at))[16 * lane + 8 * half + j]
            == Halved(s[at + 16 * lane + 2 * j], s[at + 16 * lane + 2 * j + 1])
  {
    hide Byte0, Byte2, Halved, EvenByte, SqueezedWord;
    var r := SqueezeRegister(s, at);
    EvenByteAt(r, lane, half, j);
    var w := 4 * lane + j / 2;
    SqueezedWordHalves(s, at, w);
    if j % 2 == 0 {
      assert 4 * w == 16 * lane + 2 * j;
    } else {
      assert 4 * w + 2 == 16 * lane + 2 * j;
    }
  }

  /** [x0 x0 x1 x1] and [y0 y0 y1 y1] become [x0 x1 y0 y1]. */
  lemma LanesInOrder(x: seq<byte>, y: seq<byte>, m: nat)
    requires |x| == |y| == 32 && m < 32
    ensures BlendWords(BlendWords(PermuteLanes(x, y), x, 0, 2), y, 6, 8)[m]
            == if m < 8 then x[m] else if m < 16 then x[16 + m] else if m < 24 then y[m - 16] else y[m]
  {
  }

  /** The permutations put the halves in order. */
  lemma Halve512At(s: seq<byte>, at: nat, m: nat)
    requires at + 64 <= |s| && m < 32
    ensures Halve512(s, at)[m] == Halved(s[at + 2 * m], s[at + 2 * m + 1])
  {
    hide Halved, ShuffleEven, SqueezeRegister, PermuteLanes, BlendWords;
    LanesInOrder(ShuffleEven(SqueezeRegister(s, at)), ShuffleEven(SqueezeRegister(s, at + 32)), m);
    if m < 8 {
      SqueezedEven(s, at, 0, 0, m);
    } else if m < 16 {
      SqueezedEven(s, at, 1, 1, m - 8);
    } else if m < 24 {
      SqueezedEven(s, at + 32, 0, 0, m - 16);
    } else {
      SqueezedEven(s, at + 32, 1, 1, m - 24);
    }
  }

  /** Registers at a time. */
  method HalveFast(src: seq<byte>, dst: array<byte>)
    requires |src| == 2 * dst.Length && dst.Length % 32 == 0
    modifies dst
    ensures forall q :: 0 <= q < dst.Length ==> dst[q] == HalfByte(src, q)
  {
    hide Halve512, HalfByte;
    for i := 0 to dst.Length / 32
      invariant forall q :: 0 <= q < 32 * i ==> dst[q] == HalfByte(src, q)
    {
      var z := Halve512(src, 64 * i);
      forall m | 0 <= m < 32 { dst[32 * i + m] := z[m]; }
      forall q | 32 * i <= q < 32 * i + 32 ensures dst[q] == HalfByte(src, q) {
        Halve512At(src, 64 * i, q - 32 * i);
        assert dst[32 * i + (q - 32 * i)] == z[q - 32 * i];
        HalfByteIs(src, q);
      }
    }
  }

  lemma HalfByteIs(src: seq<byte>, q: nat)
    requires 2 * q + 1 < |src|
    ensures HalfByte(src, q) == Halved(src[2 * q], src[2 * q + 1])
  {
  }

  // ------------------------------------------------------------------------------------------------
  // The bits of a row

  function RowBit(s: seq<byte>, t: nat): bool
    requires t < 8 * |s|
  {
    Bit(s[t / 8], t % 8)
  }

  function RowBits(s: seq<byte>): (r: seq<bool>)
    ensures |r| == 8 * |s| && forall t :: 0 <= t < 8 * |s| ==> r[t] == RowBit(s, t)
  {
    seq(8 * |s|, t requires 0 <= t < 8 * |s| => RowBit(s, t))
  }

  lemma HalvedRowBit(src: seq<byte>, dst: seq<byte>, q: nat, c: nat)
    requires |src| == 2 * |dst| && q < |dst| && c < 8 && dst[q] == HalfByte(src, q)
    ensures RowBit(dst, 8 * q + c) == (RowBit(src, 2 * (8 * q + c)) && RowBit(src, 2 * (8 * q + c) + 1))
  {
    hide Bit, Halved;
    HalvedBit(src[2 * q], src[2 * q + 1], c);
    var t := 2 * (8 * q + c);
    if c < 4 {
      assert t / 8 == 2 * q && (t + 1) / 8 == 2 * q && t % 8 == 2 * c && (t + 1) % 8 == 2 * c + 1;
    } else {
      assert t / 8 == 2 * q + 1 && (t + 1) / 8 == 2 * q + 1 && t % 8 == 2 * (c - 4) && (t + 1) % 8 == 2 * (c - 4) + 1;
    }
  }

  /** A row of packed bytes is halved as the ring buffer model halves a row of bits. */
  lemma HalvesTheBits(src: seq<byte>, dst: seq<byte>)
    requires |src| == 2 * |dst| && forall q :: 0 <= q < |dst| ==> dst[q] == HalfByte(src, q)
    ensures RowBits(dst) == Telescope.HalfRow(RowBits(src))
  {
    hide Bit, Halved, RowBit;
    var a, b := RowBits(dst), Telescope.HalfRow(RowBits(src));
    forall t | 0 <= t < |a| ensures a[t] == b[t] {
      HalvedRowBit(src, dst, t / 8, t % 8);
    }
  }
}
