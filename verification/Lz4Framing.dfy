/**
  The framed compressed stream: the input is cut into blocks, each block is bit-shuffled, compressed by a codec and
  preceded by its compressed size; what does not fill eight elements is copied.  The codec is a parameter with the
  laws of a real one.
*/
module Lz4Framing {
  import opened BitMatrix
  import opened Options
  import opened Products

  datatype Decoded = Decoded(data: seq<byte>, consumed: nat)

  /**
    `decompress(stream, n)` looks for n bytes at the beginning of the stream and reports how much of it they took;
    `bound(n)` is how much n bytes may take.
  */
  datatype Codec = Codec(compress: seq<byte> -> seq<byte>, decompress: (seq<byte>, nat) -> Option<Decoded>, bound: nat -> nat)

  /** For inputs of at most `limit` bytes: what is compressed decompresses, whatever follows it, and is not too long. */
  ghost predicate Lawful(c: Codec, limit: nat) {
    && (forall s, rest :: |s| <= limit ==> RoundTrips(c, s, rest))
    && (forall s: seq<byte> :: |s| <= limit ==> WithinBound(c, s))
  }

  predicate RoundTrips(c: Codec, s: seq<byte>, rest: seq<byte>) {
    c.decompress(c.compress(s) + rest, |s|) == Some(Decoded(s, |c.compress(s)|))
  }

  predicate WithinBound(c: Codec, s: seq<byte>) {
    |c.compress(s)| <= c.bound(|s|) < 0x8000_0000
  }

  // ------------------------------------------------------------------------------------------------
  // Headers

  /** The byte with the binary digits of n, and back. */
  function ToByte(n: nat): byte {
    Pack(n % 2 == 1, n / 2 % 2 == 1, n / 4 % 2 == 1, n / 8 % 2 == 1,
         n / 16 % 2 == 1, n / 32 % 2 == 1, n / 64 % 2 == 1, n / 128 % 2 == 1)
  }

  function Digit(b: byte, k: nat): nat
    requires k < 8
  {
    if Bit(b, k) then 1 else 0
  }

  function FromByte(b: byte): nat {
    Digit(b, 0) + 2 * Digit(b, 1) + 4 * Digit(b, 2) + 8 * Digit(b, 3)
    + 16 * Digit(b, 4) + 32 * Digit(b, 5) + 64 * Digit(b, 6) + 128 * Digit(b, 7)
  }

  lemma DigitOf(n: nat, k: nat)
    requires k < 8
    ensures Digit(ToByte(n), k) == [n % 2, n / 2 % 2, n / 4 % 2, n / 8 % 2, n / 16 % 2, n / 32 % 2, n / 64 % 2, n / 128 % 2][k]
  {
    hide Bit, Pack;
    PackedBit(n % 2 == 1, n / 2 % 2 == 1, n / 4 % 2 == 1, n / 8 % 2 == 1,
              n / 16 % 2 == 1, n / 32 % 2 == 1, n / 64 % 2 == 1, n / 128 % 2 == 1, k);
  }

  lemma BinaryDigits(n: nat)
    requires n < 256
    ensures n % 2 + 2 * (n / 2 % 2) + 4 * (n / 4 % 2) + 8 * (n / 8 % 2)
            + 16 * (n / 16 % 2) + 32 * (n / 32 % 2) + 64 * (n / 64 % 2) + 128 * (n / 128 % 2) == n
  {
    var a := n / 2; var b := a / 2; var c := b / 2; var d := c / 2; var e := d / 2; var f := e / 2; var g := f / 2;
    assert n == n % 2 + 2 * (a % 2) + 4 * (b % 2) + 8 * (c % 2) + 16 * (d % 2) + 32 * (e % 2) + 64 * (f % 2) + 128 * g;
    assert b == n / 4 && c == n / 8 && d == n / 16 && e == n / 32 && f == n / 64 && g == n / 128;
    assert g < 2;
  }

  lemma ByteRoundTrip(n: nat)
    requires n < 256
    ensures FromByte(ToByte(n)) == n
  {
    hide ToByte, Digit;
    DigitOf(n, 0); DigitOf(n, 1); DigitOf(n, 2); DigitOf(n, 3); DigitOf(n, 4); DigitOf(n, 5); DigitOf(n, 6); DigitOf(n, 7);
    BinaryDigits(n);
  }

  /** Four bytes, most significant first; larger numbers are cut off. */
  function WriteBE(n: nat): (r: seq<byte>)
    ensures |r| == 4
  {
    [ToByte(n / 0x100_0000 % 256), ToByte(n / 0x1_0000 % 256), ToByte(n / 0x100 % 256), ToByte(n % 256)]
  }

  function ReadBE(s: seq<byte>): nat
    requires |s| >= 4
  {
    FromByte(s[3]) + FromByte(s[2]) * 0x100 + FromByte(s[1]) * 0x1_0000 + FromByte(s[0]) * 0x100_0000
  }

  /** The decompressor reads the header into a signed variable. */
  function AsInt32(n: nat): int {
    if n % 0x1_0000_0000 < 0x8000_0000 then n % 0x1_0000_0000 else n % 0x1_0000_0000 - 0x1_0000_0000
  }

  lemma HeaderRoundTrip(n: nat, rest: seq<byte>)
    ensures ReadBE(WriteBE(n) + rest) == n % 0x1_0000_0000
    ensures n < 0x8000_0000 ==> AsInt32(ReadBE(WriteBE(n) + rest)) == n
  {
    hide ToByte, FromByte;
    var w := WriteBE(n) + rest;
    assert w[0] == ToByte(n / 0x100_0000 % 256) && w[1] == ToByte(n / 0x1_0000 % 256);
    assert w[2] == ToByte(n / 0x100 % 256) && w[3] == ToByte(n % 256);
    ReadOfWritten(w, n);
  }

  lemma ByteValue(b: byte)
    ensures FromByte(b) == b as nat
  {
  }

  /** The number that four bytes make, the most significant first. */
  function BigEndian(a: byte, b: byte, c: byte, d: byte): nat {
    ((a as nat * 256 + b as nat) * 256 + c as nat) * 256 + d as nat
  }

  lemma MostSignificantFirst(s: seq<byte>)
    requires |s| >= 4
    ensures ReadBE(s) == BigEndian(s[0], s[1], s[2], s[3])
  {
    hide FromByte;
    ByteValue(s[0]);
    ByteValue(s[1]);
    ByteValue(s[2]);
    ByteValue(s[3]);
  }

  lemma ReadOfWritten(w: seq<byte>, n: nat)
    requires |w| >= 4
    requires w[0] == ToByte(n / 0x100_0000 % 256) && w[1] == ToByte(n / 0x1_0000 % 256)
    requires w[2] == ToByte(n / 0x100 % 256) && w[3] == ToByte(n % 256)
    ensures ReadBE(w) == n % 0x1_0000_0000
  {
    hide ToByte, FromByte;
    ByteRoundTrip(n / 0x100_0000 % 256);
    ByteRoundTrip(n / 0x1_0000 % 256);
    ByteRoundTrip(n / 0x100 % 256);
    ByteRoundTrip(n % 256);
    Digits(n);
  }

  lemma Digits(n: nat)
    ensures n % 256 + n / 0x100 % 256 * 0x100 + n / 0x1_0000 % 256 * 0x1_0000 + n / 0x100_0000 % 256 * 0x100_0000
            == n % 0x1_0000_0000
  {
    NestedDivision(n);
    DigitSum(n, n / 0x100, n / 0x100 / 0x100, n / 0x100 / 0x100 / 0x100);
  }

  lemma NestedDivision(n: nat)
    ensures n / 0x1_0000 == n / 0x100 / 0x100
    ensures n / 0x100_0000 == n / 0x100 / 0x100 / 0x100
  {
  }

  lemma DigitSum(n: nat, a: nat, b: nat, c: nat)
    requires a == n / 0x100 && b == a / 0x100 && c == b / 0x100
    ensures n % 256 + a % 256 * 0x100 + b % 256 * 0x1_0000 + c % 256 * 0x100_0000 == n % 0x1_0000_0000
  {
    assert n == (c / 256) * 0x1_0000_0000 + c % 256 * 0x100_0000 + b % 256 * 0x1_0000 + a % 256 * 0x100 + n % 256;
  }

  // ------------------------------------------------------------------------------------------------
  // Blocks

  const TARGET_BLOCK_BYTES := 8192
  const MIN_BLOCK := 128

  /**
    Block size 0 asks for the default: as many elements as fit in 8192 bytes, rounded down to a multiple of eight; but
    for elements of more than 64 bytes, of which fewer would fit, 128.
  */
  function ChosenBlockSize(blockSize: nat, elem: nat): (r: nat)
    requires elem > 0
    ensures blockSize == 0 ==> r % 8 == 0 && r >= 128
    ensures blockSize == 0 && elem <= 64 ==> r * elem <= 8192 < (r + 8) * elem
    ensures blockSize == 0 && elem > 64 ==> r == 128
    ensures blockSize > 0 ==> r == blockSize
  {
    DefaultBlock(elem);
    if blockSize > 0 then blockSize
    else
      var b := TARGET_BLOCK_BYTES / elem / 8 * 8;
      if b > MIN_BLOCK then b else MIN_BLOCK
  }

  lemma DefaultBlock(elem: nat)
    requires elem > 0
    ensures var b := TARGET_BLOCK_BYTES / elem / 8 * 8;
            && b % 8 == 0 && b * elem <= 8192 < (b + 8) * elem
            && (elem <= 64 ==> b >= 128) && (elem > 64 ==> b <= 128)
  {
    var q := TARGET_BLOCK_BYTES / elem;
    QuotientFits(TARGET_BLOCK_BYTES, elem);
    RoundedToOctets(q);
    RoundedBlock(elem, q, q / 8 * 8);
  }

  lemma QuotientFits(x: nat, n: nat)
    requires n > 0
    ensures n * (x / n) <= x < n * (x / n + 1)
  {
    Distributes(n, x / n, 1);
  }

  lemma RoundedToOctets(q: nat)
    ensures (q / 8 * 8) % 8 == 0 && q / 8 * 8 <= q < q / 8 * 8 + 8
  {
  }

  lemma RoundedBlock(elem: nat, q: nat, b: nat)
    requires elem > 0 && elem * q <= 8192 < elem * (q + 1) && b <= q < b + 8 && b % 8 == 0
    ensures b * elem <= 8192 < (b + 8) * elem
    ensures (elem <= 64 ==> b >= 128) && (elem > 64 ==> b <= 128)
  {
    Grows(elem, b, q);
    Grows(elem, q + 1, b + 8);
    if elem <= 64 && b < 128 { Grows(128, elem, 64); Grows(elem, b + 8, 128); }
    if elem > 64 && b > 128 { Grows(b, 65, elem); }
  }

  /** The sizes of the blocks, in elements: full ones, then what is left rounded down to a multiple of eight. */
  function BlockSizes(size: nat, blockSize: nat): (r: seq<nat>)
    requires blockSize > 0 && blockSize % 8 == 0
    ensures forall k :: 0 <= k < |r| ==> r[k] % 8 == 0 && 0 < r[k] <= blockSize
  {
    if size >= blockSize then [blockSize] + BlockSizes(size - blockSize, blockSize)
    else if size - size % 8 > 0 then [size - size % 8]
    else []
  }

  predicate Octets(sizes: seq<nat>) {
    sizes == [] || (sizes[0] % 8 == 0 && Octets(sizes[1..]))
  }

  lemma {:induction false} BlocksAreOctets(size: nat, blockSize: nat)
    requires blockSize > 0 && blockSize % 8 == 0
    ensures Octets(BlockSizes(size, blockSize))
  {
    if size >= blockSize {
      BlocksAreOctets(size - blockSize, blockSize);
      assert BlockSizes(size, blockSize)[1..] == BlockSizes(size - blockSize, blockSize);
    }
  }

  function Total(sizes: seq<nat>): nat {
    if sizes == [] then 0 else sizes[0] + Total(sizes[1..])
  }

  lemma LessAWholeBlock(size: nat, blockSize: nat)
    requires blockSize % 8 == 0 && blockSize <= size
    ensures (size - blockSize) % 8 == size % 8
  {
  }

  /** Together the blocks cover all elements but the last size % 8. */
  lemma {:induction false} BlocksCover(size: nat, blockSize: nat)
    requires blockSize > 0 && blockSize % 8 == 0
    ensures Total(BlockSizes(size, blockSize)) == size - size % 8
  {
    if size >= blockSize {
      BlocksCover(size - blockSize, blockSize);
      assert BlockSizes(size, blockSize)[1..] == BlockSizes(size - blockSize, blockSize);
      LessAWholeBlock(size, blockSize);
    }
  }

  /** Size in bytes. */
  function Bytes(n: nat, elem: nat): nat {
    At(n, elem, 0)
  }

  /** The input a sequence of blocks reads: the blocks themselves and `tail` more bytes. */
  function InputSize(sizes: seq<nat>, elem: nat, tail: nat): nat {
    if sizes == [] then tail else Bytes(sizes[0], elem) + InputSize(sizes[1..], elem, tail)
  }

  lemma {:induction false} InputIsTotal(sizes: seq<nat>, elem: nat, tail: nat)
    ensures InputSize(sizes, elem, tail) == Bytes(Total(sizes), elem) + tail
  {
    if sizes != [] {
      InputIsTotal(sizes[1..], elem, tail);
      AtRows(sizes[0], Total(sizes[1..]), elem, 0);
    }
  }

  // ------------------------------------------------------------------------------------------------
  // Compression

  function Shuffle(block: seq<byte>, n: nat, elem: nat): (r: seq<byte>)
    requires n % 8 == 0 && |block| == Bytes(n, elem)
    ensures |r| == |block|
  {
    ShuffleOf(block, n / 8, elem)
  }

  function Unshuffle(block: seq<byte>, n: nat, elem: nat): (r: seq<byte>)
    requires n % 8 == 0 && |block| == Bytes(n, elem)
    ensures |r| == |block|
  {
    UnshuffleOf(block, n / 8, elem)
  }

  lemma ShuffleRoundTrip(block: seq<byte>, n: nat, elem: nat)
    requires n % 8 == 0 && |block| == Bytes(n, elem)
    ensures Unshuffle(Shuffle(block, n, elem), n, elem) == block
  {
    ShuffleIsBijective(block, n / 8, elem);
  }

  function Frame(c: Codec, block: seq<byte>, n: nat, elem: nat): seq<byte>
    requires n % 8 == 0 && |block| == Bytes(n, elem)
  {
    var z := c.compress(Shuffle(block, n, elem));
    WriteBE(|z|) + z
  }

  /** A frame is the size of what the codec makes of the shuffled block, most significant byte first, and that. */
  lemma FrameLayout(c: Codec, block: seq<byte>, n: nat, elem: nat)
    requires n % 8 == 0 && |block| == Bytes(n, elem)
    ensures var f, z := Frame(c, block, n, elem), c.compress(Shuffle(block, n, elem));
            && |f| == 4 + |z| && f[4..] == z && BigEndian(f[0], f[1], f[2], f[3]) == |z| % 0x1_0000_0000
  {
    var f, z := Frame(c, block, n, elem), c.compress(Shuffle(block, n, elem));
    hide WriteBE, FromByte, Shuffle, Bytes, BigEndian, ReadBE;
    HeaderRoundTrip(|z|, z);
    MostSignificantFirst(f);
  }

  /** All blocks, then the tail as it is. */
  function Compress(c: Codec, data: seq<byte>, sizes: seq<nat>, elem: nat, tail: nat): seq<byte>
    requires Octets(sizes) && |data| == InputSize(sizes, elem, tail)
  {
    if sizes == [] then data
    else
      var m := Bytes(sizes[0], elem);
      Frame(c, data[..m], sizes[0], elem) + Compress(c, data[m..], sizes[1..], elem, tail)
  }

  // ------------------------------------------------------------------------------------------------
  // Decompression

  /** The codec's own failures are reported less 1000; a size that differs from the header is -91. */
  datatype Result = Good(data: seq<byte>, consumed: nat) | CodecFailed | SizeMismatch | Overrun

  function DecodeFrame(c: Codec, stream: seq<byte>, n: nat, elem: nat): (r: Result)
    requires n % 8 == 0
    ensures r.Good? ==> |r.data| == Bytes(n, elem)
  {
    if |stream| < 4 then Overrun
    else
      match c.decompress(stream[4..], Bytes(n, elem))
      case None => CodecFailed
      case Some(d) =>
        if d.consumed != AsInt32(ReadBE(stream)) then SizeMismatch
        else if |d.data| != Bytes(n, elem) || 4 + d.consumed > |stream| then Overrun
        else Good(Unshuffle(d.data, n, elem), 4 + d.consumed)
  }

  function Decompress(c: Codec, stream: seq<byte>, sizes: seq<nat>, elem: nat, tail: nat): (r: Result)
    requires Octets(sizes)
    ensures r.Good? ==> r.consumed <= |stream| && |r.data| == InputSize(sizes, elem, tail)
    decreases |sizes|
  {
    if sizes == [] then if |stream| < tail then Overrun else Good(stream[..tail], tail)
    else
      match DecodeFrame(c, stream, sizes[0], elem)
      case Good(block, used) =>
        if used > |stream| then Overrun
        else
          (match Decompress(c, stream[used..], sizes[1..], elem, tail)
           case Good(data, more) => Good(block + data, used + more)
           case bad => bad)
      case bad => bad
  }

  // ------------------------------------------------------------------------------------------------
  // The round trip

  predicate BlocksFit(sizes: seq<nat>, elem: nat, limit: nat) {
    sizes == [] || (Bytes(sizes[0], elem) <= limit && BlocksFit(sizes[1..], elem, limit))
  }

  lemma FrameRoundTrip(c: Codec, limit: nat, block: seq<byte>, n: nat, elem: nat, rest: seq<byte>)
    requires Lawful(c, limit) && n % 8 == 0 && |block| == Bytes(n, elem) <= limit
    ensures DecodeFrame(c, Frame(c, block, n, elem) + rest, n, elem) == Good(block, |Frame(c, block, n, elem)|)
    ensures AsInt32(ReadBE(Frame(c, block, n, elem) + rest)) + 4 == |Frame(c, block, n, elem)|
  {
    var t := Shuffle(block, n, elem);
    var z := c.compress(t);
    var stream := Frame(c, block, n, elem) + rest;
    assert stream == WriteBE(|z|) + (z + rest);
    assert stream[4..] == z + rest;
    assert RoundTrips(c, t, rest) && WithinBound(c, t);
    HeaderRoundTrip(|z|, z + rest);
    ShuffleRoundTrip(block, n, elem);
  }

  /** Decompressing what was compressed gives the input back and reads exactly what compression wrote. */
  lemma {:induction false} CompressRoundTrip(c: Codec, limit: nat, data: seq<byte>, sizes: seq<nat>, elem: nat, tail: nat,
                                             rest: seq<byte>)
    requires Lawful(c, limit) && Octets(sizes) && |data| == InputSize(sizes, elem, tail) && BlocksFit(sizes, elem, limit)
    ensures Decompress(c, Compress(c, data, sizes, elem, tail) + rest, sizes, elem, tail)
            == Good(data, |Compress(c, data, sizes, elem, tail)|)
    decreases |sizes|
  {
    hide Frame, Bytes, DecodeFrame, Lawful;
    if sizes == [] {
      assert (data + rest)[..tail] == data;
    } else {
      var m := Bytes(sizes[0], elem);
      CompressRoundTrip(c, limit, data[m..], sizes[1..], elem, tail, rest);
      FrameThenRest(c, limit, data[..m], sizes, elem, tail, data[m..], Compress(c, data[m..], sizes[1..], elem, tail), rest);
      assert data[..m] + data[m..] == data;
    }
  }

  lemma FrameThenRest(c: Codec, limit: nat, block: seq<byte>, sizes: seq<nat>, elem: nat, tail: nat, data: seq<byte>,
                      more: seq<byte>, rest: seq<byte>)
    requires Lawful(c, limit) && Octets(sizes) && sizes != [] && |block| == Bytes(sizes[0], elem) <= limit
    requires Decompress(c, more + rest, sizes[1..], elem, tail) == Good(data, |more|)
    ensures var frame := Frame(c, block, sizes[0], elem);
            Decompress(c, (frame + more) + rest, sizes, elem, tail) == Good(block + data, |frame + more|)
  {
    hide Frame, Bytes, DecodeFrame, Lawful;
    var frame := Frame(c, block, sizes[0], elem);
    var stream := (frame + more) + rest;
    assert stream == frame + (more + rest);
    FrameRoundTrip(c, limit, block, sizes[0], elem, more + rest);
    assert stream[|frame|..] == more + rest;
  }

  // ------------------------------------------------------------------------------------------------
  // The bound

  /** The published bound: full blocks, the partial block if there is one, the tail. */
  function Bound(c: Codec, size: nat, elem: nat, blockSize: nat): int
    requires blockSize > 0
  {
    var leftover := (size % blockSize) / 8 * 8;
    (c.bound(Bytes(blockSize, elem)) + 4) * (size / blockSize)
    + (if leftover > 0 then c.bound(Bytes(leftover, elem)) + 4 else 0)
    + Bytes(size % 8, elem)
  }

  /** The same, block by block. */
  function FramesBound(c: Codec, sizes: seq<nat>, elem: nat): nat {
    if sizes == [] then 0 else c.bound(Bytes(sizes[0], elem)) + 4 + FramesBound(c, sizes[1..], elem)
  }

  lemma {:induction false} CompressWithinFrames(c: Codec, limit: nat, data: seq<byte>, sizes: seq<nat>, elem: nat, tail: nat)
    requires Lawful(c, limit) && Octets(sizes) && |data| == InputSize(sizes, elem, tail) && BlocksFit(sizes, elem, limit)
    ensures |Compress(c, data, sizes, elem, tail)| <= FramesBound(c, sizes, elem) + tail
    decreases |sizes|
  {
    if sizes != [] {
      var m := Bytes(sizes[0], elem);
      assert WithinBound(c, Shuffle(data[..m], sizes[0], elem));
      CompressWithinFrames(c, limit, data[m..], sizes[1..], elem, tail);
    }
  }

  /** It is no more than needed: a codec that needs its bound for every block makes a stream as long as the bound. */
  ghost predicate NeedsItsBound(c: Codec, limit: nat) {
    forall s: seq<byte> :: |s| <= limit ==> |c.compress(s)| == c.bound(|s|)
  }

  lemma {:induction false} FramesAreTight(c: Codec, limit: nat, data: seq<byte>, sizes: seq<nat>, elem: nat, tail: nat)
    requires NeedsItsBound(c, limit) && Octets(sizes) && |data| == InputSize(sizes, elem, tail) && BlocksFit(sizes, elem, limit)
    ensures |Compress(c, data, sizes, elem, tail)| == FramesBound(c, sizes, elem) + tail
    decreases |sizes|
  {
    if sizes != [] {
      var m := Bytes(sizes[0], elem);
      assert |Shuffle(data[..m], sizes[0], elem)| == m;
      FramesAreTight(c, limit, data[m..], sizes[1..], elem, tail);
    }
  }

  lemma BoundIsTight(c: Codec, limit: nat, data: seq<byte>, size: nat, elem: nat, blockSize: nat)
    requires NeedsItsBound(c, limit) && blockSize > 0 && blockSize % 8 == 0
    requires BlocksFit(BlockSizes(size, blockSize), elem, limit)
    requires |data| == InputSize(BlockSizes(size, blockSize), elem, Bytes(size % 8, elem))
    ensures Octets(BlockSizes(size, blockSize))
    ensures |Compress(c, data, BlockSizes(size, blockSize), elem, Bytes(size % 8, elem))| == Bound(c, size, elem, blockSize)
  {
    hide Compress, FramesBound, Bytes, BlockSizes, NeedsItsBound, Bound, InputSize, BlocksFit;
    BlocksAreOctets(size, blockSize);
    FramesAreTight(c, limit, data, BlockSizes(size, blockSize), elem, Bytes(size % 8, elem));
    FramesWithinBound(c, size, elem, blockSize);
  }

  lemma {:induction false} FramesWithinBound(c: Codec, size: nat, elem: nat, blockSize: nat)
    requires blockSize > 0 && blockSize % 8 == 0
    ensures FramesBound(c, BlockSizes(size, blockSize), elem) + Bytes(size % 8, elem) == Bound(c, size, elem, blockSize)
  {
    hide Bound, Bytes;
    if size >= blockSize {
      FramesWithinBound(c, size - blockSize, elem, blockSize);
      assert BlockSizes(size, blockSize)[1..] == BlockSizes(size - blockSize, blockSize);
      BoundOfMore(c, size, elem, blockSize);
      LessAWholeBlock(size, blockSize);
    } else {
      BoundOfLess(c, size, elem, blockSize);
    }
  }

  lemma BoundOfMore(c: Codec, size: nat, elem: nat, blockSize: nat)
    requires 0 < blockSize <= size && blockSize % 8 == 0
    ensures Bound(c, size, elem, blockSize) == Bound(c, size - blockSize, elem, blockSize) + c.bound(Bytes(blockSize, elem)) + 4
  {
    hide Bytes;
    OneBlockLess(size, blockSize);
    LessAWholeBlock(size, blockSize);
    Distributes(c.bound(Bytes(blockSize, elem)) + 4, (size - blockSize) / blockSize, 1);
  }

  lemma BoundOfLess(c: Codec, size: nat, elem: nat, blockSize: nat)
    requires size < blockSize && blockSize % 8 == 0
    ensures var whole := size - size % 8;
            Bound(c, size, elem, blockSize) == (if whole > 0 then c.bound(Bytes(whole, elem)) + 4 else 0) + Bytes(size % 8, elem)
  {
    hide Bytes;
    SmallSize(size, blockSize);
  }

  lemma SmallSize(size: nat, blockSize: nat)
    requires size < blockSize
    ensures size / blockSize == 0 && size % blockSize == size && size / 8 * 8 == size - size % 8
  {
  }

  lemma OneBlockLess(size: nat, blockSize: nat)
    requires 0 < blockSize <= size && blockSize % 8 == 0
    ensures size / blockSize == (size - blockSize) / blockSize + 1
    ensures size % blockSize == (size - blockSize) % blockSize
  {
    var q, r := (size - blockSize) / blockSize, (size - blockSize) % blockSize;
    assert blockSize * (q + 1) == blockSize * q + blockSize;
    DivisionIsUnique(blockSize, size / blockSize, size % blockSize, q + 1, r);
  }

  lemma {:induction false} BlocksFitLimit(size: nat, blockSize: nat, elem: nat, limit: nat)
    requires blockSize > 0 && blockSize % 8 == 0 && Bytes(blockSize, elem) <= limit
    ensures BlocksFit(BlockSizes(size, blockSize), elem, limit)
  {
    if size >= blockSize {
      BlocksFitLimit(size - blockSize, blockSize, elem, limit);
      assert BlockSizes(size, blockSize)[1..] == BlockSizes(size - blockSize, blockSize);
    } else {
      AtRows(size - size % 8, blockSize - (size - size % 8), elem, 0);
    }
  }

  /**
    For every input, element size and block size: decompression returns the input, consumes exactly the bytes that
    compression produced, and there are never more of them than the published bound.
  */
  lemma StreamRoundTrip(c: Codec, data: seq<byte>, size: nat, elem: nat, blockSize: nat, rest: seq<byte>)
    requires blockSize > 0 && blockSize % 8 == 0 && Lawful(c, Bytes(blockSize, elem))
    requires |data| == Bytes(size, elem)
    ensures var sizes, tail := BlockSizes(size, blockSize), Bytes(size % 8, elem);
            && Octets(sizes) && InputSize(sizes, elem, tail) == |data|
            && var stream := Compress(c, data, sizes, elem, tail);
            && Decompress(c, stream + rest, sizes, elem, tail) == Good(data, |stream|)
            && |stream| <= Bound(c, size, elem, blockSize)
  {
    var sizes, tail := BlockSizes(size, blockSize), Bytes(size % 8, elem);
    BlocksAreOctets(size, blockSize);
    BlocksCover(size, blockSize);
    InputIsTotal(sizes, elem, tail);
    AtRows(size - size % 8, size % 8, elem, 0);
    BlocksFitLimit(size, blockSize, elem, Bytes(blockSize, elem));
    CompressRoundTrip(c, Bytes(blockSize, elem), data, sizes, elem, tail, rest);
    CompressWithinFrames(c, Bytes(blockSize, elem), data, sizes, elem, tail);
    FramesWithinBound(c, size, elem, blockSize);
  }
}
