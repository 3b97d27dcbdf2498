/**
  The compressor and decompressor as they run on one thread: buffers written in place through a chain of positions
  kept in 33 reused slots.
*/
module Lz4Chain {
  import opened BitMatrix
  import opened BitshuffleScalar
  import opened Lz4Framing

  const IOC_SIZE := 33
  const BAD_BLOCK_SIZE := -81
  const SIZE_MISMATCH := -91

  /** Positions are offsets into the two buffers. */
  class Chain {
    var next: nat
    var inPl: seq<nat>
    var outPl: seq<nat>

    predicate Valid()
      reads this
    {
      |inPl| == |outPl| == IOC_SIZE
    }

    /** Where the next iteration reads, and where it writes. */
    function Input(): nat
      requires Valid()
      reads this
    {
      inPl[next % IOC_SIZE]
    }

    function Output(): nat
      requires Valid()
      reads this
    {
      outPl[next % IOC_SIZE]
    }

    constructor (in0: nat, out0: nat)
      ensures Valid() && next == 0 && Input() == in0 && Output() == out0
    {
      next := 0;
      inPl := seq(IOC_SIZE, _ => 0)[0 := in0];
      outPl := seq(IOC_SIZE, _ => 0)[0 := out0];
    }

    method GetIn() returns (iter: nat, p: nat)
      requires Valid()
      modifies this`next
      ensures iter == old(next) && next == iter + 1 && p == old(Input())
    {
      iter := next;
      next := next + 1;
      p := inPl[iter % IOC_SIZE];
    }

    method SetNextIn(iter: nat, p: nat)
      requires Valid()
      modifies this`inPl
      ensures inPl == old(inPl)[(iter + 1) % IOC_SIZE := p]
    {
      inPl := inPl[(iter + 1) % IOC_SIZE := p];
    }

    method GetOut(iter: nat) returns (p: nat)
      requires Valid()
      ensures p == outPl[iter % IOC_SIZE]
    {
      p := outPl[iter % IOC_SIZE];
    }

    method SetNextOut(iter: nat, p: nat)
      requires Valid()
      modifies this`outPl
      ensures outPl == old(outPl)[(iter + 1) % IOC_SIZE := p]
    {
      outPl := outPl[(iter + 1) % IOC_SIZE := p];
    }
  }

  /** `out` has `bytes` at `at`, and is otherwise as before. */
  predicate Stored(before: seq<byte>, after: seq<byte>, at: nat, bytes: seq<byte>) {
    && at + |bytes| <= |before| == |after|
    && after == before[..at] + bytes + before[at + |bytes|..]
  }

  /** Big-endian, least significant byte first in time, as the program's loop goes. */
  method WriteUint32BE(out: array<byte>, at: nat, num: nat)
    requires at + 4 <= out.Length
    modifies out
    ensures Stored(old(out[..]), out[..], at, WriteBE(num))
  {
    ghost var before := out[..];
    var rest := num;
    out[at + 3] := ToByte(rest % 256);
    rest := rest / 256;
    out[at + 2] := ToByte(rest % 256);
    rest := rest / 256;
    out[at + 1] := ToByte(rest % 256);
    rest := rest / 256;
    out[at] := ToByte(rest % 256);
    NestedDivision(num);
    assert out[..] == before[..at] + WriteBE(num) + before[at + 4..];
  }

  method CopyBytes(inp: seq<byte>, out: array<byte>, at: nat)
    requires at + |inp| <= out.Length
    modifies out
    ensures Stored(old(out[..]), out[..], at, inp)
  {
    ghost var before := out[..];
    forall k | 0 <= k < |inp| { out[at + k] := inp[k]; }
    assert out[..] == before[..at] + inp + before[at + |inp|..];
  }

  lemma StoredTwice(a: seq<byte>, b: seq<byte>, c: seq<byte>, at: nat, x: seq<byte>, y: seq<byte>)
    requires Stored(a, b, at, x) && Stored(b, c, at + |x|, y)
    ensures Stored(a, c, at, x + y)
  {
    var end := at + |x| + |y|;
    assert b[..at + |x|] == a[..at] + x;
    assert b[end..] == a[end..];
    assert (a[..at] + x) + y == a[..at] + (x + y);
  }

  // ------------------------------------------------------------------------------------------------
  // One block

  method ShuffleBlock(block: seq<byte>, n: nat, elem: nat) returns (t: seq<byte>)
    requires n % 8 == 0 && |block| == Bytes(n, elem)
    ensures t == Shuffle(block, n, elem)
  {
    var inp := new byte[|block|](k requires 0 <= k < |block| => block[k]);
    var tmp := new byte[|block|];
    assert inp[..] == block;
    var count := TransBitElemScal(inp, tmp, n, elem);
    t := tmp[..];
  }

  method UnshuffleBlock(t: seq<byte>, n: nat, elem: nat) returns (block: seq<byte>)
    requires n % 8 == 0 && |t| == Bytes(n, elem)
    ensures block == Unshuffle(t, n, elem)
  {
    var inp := new byte[|t|](k requires 0 <= k < |t| => t[k]);
    var tmp := new byte[|t|];
    assert inp[..] == t;
    var count := UntransBitElemScal(inp, tmp, n, elem);
    block := tmp[..];
  }

  /** The compressed form of a block, without its header. */
  method CompressedBlock(c: Codec, block: seq<byte>, n: nat, elem: nat) returns (z: seq<byte>)
    requires n % 8 == 0 && |block| == Bytes(n, elem)
    ensures Frame(c, block, n, elem) == WriteBE(|z|) + z
  {
    var t := ShuffleBlock(block, n, elem);
    z := c.compress(t);
  }

  /** Header and compressed data. */
  method WriteFrame(out: array<byte>, at: nat, z: seq<byte>)
    requires at + 4 + |z| <= out.Length
    modifies out
    ensures Stored(old(out[..]), out[..], at, WriteBE(|z|) + z)
  {
    hide WriteBE;
    ghost var before := out[..];
    WriteUint32BE(out, at, |z|);
    ghost var between := out[..];
    CopyBytes(z, out, at + 4);
    StoredTwice(before, between, out[..], at, WriteBE(|z|), z);
  }

  /** Bitshuffle and compress one block. */
  method CompressBlock(c: Codec, chain: Chain, inp: array<byte>, out: array<byte>, n: nat, elem: nat,
                       ghost p0: nat, ghost q0: nat, ghost block: seq<byte>, ghost frame: seq<byte>)
    returns (nbytes: nat)
    requires chain.Valid() && inp != out && n % 8 == 0
    requires p0 == chain.Input() && p0 + Bytes(n, elem) <= inp.Length
    requires block == inp[p0..p0 + Bytes(n, elem)] && frame == Frame(c, block, n, elem)
    requires q0 == chain.Output() && q0 + |frame| <= out.Length
    modifies chain, out
    ensures chain.Valid() && nbytes == |frame| && chain.Input() == p0 + Bytes(n, elem) && chain.Output() == q0 + |frame|
    ensures Stored(old(out[..]), out[..], q0, frame)
  {
    hide Bytes, Frame, Stored;
    var iter, p := chain.GetIn();
    var m := Bytes(n, elem);
    chain.SetNextIn(iter, p + m);
    assert inp[p..p + m] == block;
    var z := CompressedBlock(c, inp[p..p + m], n, elem);
    var q := chain.GetOut(iter);
    chain.SetNextOut(iter, q + |z| + 4);
    WriteFrame(out, q, z);
    nbytes := |z| + 4;
  }

  // ------------------------------------------------------------------------------------------------
  // The whole buffer

  /** Blocks one after the other, then the bytes that do not fill eight elements. */
  method CompressLz4(c: Codec, inp: array<byte>, out: array<byte>, size: nat, elem: nat, blockSize: nat) returns (count: int)
    requires inp != out && elem > 0 && inp.Length == Bytes(size, elem)
    requires Lawful(c, Bytes(ChosenBlockSize(blockSize, elem), elem))
    requires ChosenBlockSize(blockSize, elem) % 8 == 0 ==> out.Length >= Bound(c, size, elem, ChosenBlockSize(blockSize, elem))
    modifies out
    ensures ChosenBlockSize(blockSize, elem) % 8 != 0 ==> count == BAD_BLOCK_SIZE && out[..] == old(out[..])
    ensures ChosenBlockSize(blockSize, elem) % 8 == 0 ==>
              var sizes, tail := BlockSizes(size, ChosenBlockSize(blockSize, elem)), Bytes(size % 8, elem);
              && Octets(sizes) && InputSize(sizes, elem, tail) == |inp[..]|
              && var stream := Compress(c, inp[..], sizes, elem, tail);
              && count == |stream| <= out.Length && out[..count] == stream
  {
    hide Bytes, Lawful, Bound, Frame, Remaining, Compress, InputSize, Octets;
    var block := ChosenBlockSize(blockSize, elem);
    if block % 8 != 0 { return BAD_BLOCK_SIZE; }
    ghost var sizes, tail := BlockSizes(size, block), Bytes(size % 8, elem);
    ghost var data := inp[..];
    StreamRoundTrip(c, data, size, elem, block, []);
    ghost var stream := Compress(c, data, sizes, elem, tail);
    NothingYet(c, data, stream, out[..], sizes, elem, tail);
    count := CompressBlocks(c, inp, out, size, elem, block, data, stream);
  }

  method CompressBlocks(c: Codec, inp: array<byte>, out: array<byte>, size: nat, elem: nat, block: nat,
                        ghost data: seq<byte>, ghost stream: seq<byte>)
    returns (count: int)
    requires inp != out && block > 0 && block % 8 == 0 && inp[..] == data
    requires Remaining(c, data, stream, out[..], 0, 0, BlockSizes(size, block), elem, Bytes(size % 8, elem))
    modifies out
    ensures count == |stream| <= out.Length && out[..count] == stream
  {
    hide Bytes, Remaining, BlockSizes;
    ghost var tail := Bytes(size % 8, elem);
    var chain := new Chain(0, 0);
    var left: nat := size;
    var written: nat := 0;
    while left >= block
      invariant chain.Valid() && fresh(chain) && inp[..] == data
      invariant left % 8 == size % 8 && chain.Output() == written
      invariant Remaining(c, data, stream, out[..], chain.Input(), written, BlockSizes(left, block), elem, tail)
    {
      FullBlock(left, block);
      written := CompressNext(c, chain, inp, out, block, elem, data, stream, written, BlockSizes(left, block), tail);
      LessAWholeBlock(left, block);
      left := left - block;
    }
    PartialBlock(left, block);
    if left - left % 8 > 0 {
      written := CompressNext(c, chain, inp, out, left - left % 8, elem, data, stream, written, BlockSizes(left, block), tail);
    }
    count := CopyTail(c, chain, inp, out, size, elem, data, stream, written);
  }

  lemma FullBlock(left: nat, block: nat)
    requires 0 < block <= left && block % 8 == 0
    ensures BlockSizes(left, block) == [block] + BlockSizes(left - block, block)
    ensures BlockSizes(left, block)[1..] == BlockSizes(left - block, block)
  {
  }

  lemma PartialBlock(left: nat, block: nat)
    requires left < block && block % 8 == 0
    ensures var whole := left - left % 8;
            BlockSizes(left, block) == if whole > 0 then [whole] else []
    ensures left - left % 8 > 0 ==> BlockSizes(left, block)[1..] == []
  {
  }

  /** The next block. */
  method CompressNext(c: Codec, chain: Chain, inp: array<byte>, out: array<byte>, n: nat, elem: nat, ghost data: seq<byte>,
                      ghost stream: seq<byte>, o: nat, ghost sizes: seq<nat>, ghost tail: nat)
    returns (count: nat)
    requires chain.Valid() && inp != out && inp[..] == data && chain.Output() == o
    requires sizes != [] && sizes[0] == n && Remaining(c, data, stream, out[..], chain.Input(), o, sizes, elem, tail)
    modifies chain, out
    ensures chain.Valid() && chain.Output() == count <= out.Length && inp[..] == data
    ensures Remaining(c, data, stream, out[..], chain.Input(), count, sizes[1..], elem, tail)
  {
    hide Bytes, Frame, Remaining, Stored;
    ghost var before, p := out[..], chain.Input();
    NextFrame(c, data, stream, before, p, o, sizes, elem, tail);
    ghost var block := data[p..p + Bytes(n, elem)];
    assert inp[p..p + Bytes(n, elem)] == block;
    var more := CompressBlock(c, chain, inp, out, n, elem, p, o, block, Frame(c, block, n, elem));
    assert inp[..] == data;
    FrameStored(c, data, stream, before, out[..], p, o, sizes, elem, tail);
    count := o + more;
  }

  /** The bytes that do not fill eight elements. */
  method CopyTail(c: Codec, chain: Chain, inp: array<byte>, out: array<byte>, size: nat, elem: nat, ghost data: seq<byte>,
                  ghost stream: seq<byte>, o: nat)
    returns (count: nat)
    requires chain.Valid() && inp != out && inp[..] == data && chain.Output() == o
    requires Remaining(c, data, stream, out[..], chain.Input(), o, [], elem, Bytes(size % 8, elem))
    modifies chain, out
    ensures count == |stream| <= out.Length && out[..count] == stream
  {
    hide Bytes;
    ghost var before, p0 := out[..], chain.Input();
    assert |data[p0..]| == Bytes(size % 8, elem) && before[..o] + data[p0..] == stream;
    var iter, p := chain.GetIn();
    var leftover := Bytes(size % 8, elem);
    chain.SetNextIn(iter, p + leftover);
    var q := chain.GetOut(iter);
    chain.SetNextOut(iter, q + leftover);
    assert inp[..] == data && inp[p..p + leftover] == data[p..];
    CopyBytes(inp[p..p + leftover], out, q);
    count := o + leftover;
    assert out[..count] == before[..o] + data[p..];
  }

  /** What has been written so far, followed by the compressed form of what has not been read, is the stream. */
  predicate Remaining(c: Codec, data: seq<byte>, stream: seq<byte>, out: seq<byte>, p: nat, o: nat, sizes: seq<nat>,
                      elem: nat, tail: nat) {
    && Octets(sizes) && p <= |data| && |data[p..]| == InputSize(sizes, elem, tail)
    && o <= |stream| <= |out|
    && out[..o] + Compress(c, data[p..], sizes, elem, tail) == stream
  }

  lemma NothingYet(c: Codec, data: seq<byte>, stream: seq<byte>, out: seq<byte>, sizes: seq<nat>, elem: nat, tail: nat)
    requires Octets(sizes) && |data| == InputSize(sizes, elem, tail)
    requires stream == Compress(c, data, sizes, elem, tail) && |stream| <= |out|
    ensures Remaining(c, data, stream, out, 0, 0, sizes, elem, tail)
  {
    assert data[0..] == data;
  }

  lemma NextFrame(c: Codec, data: seq<byte>, stream: seq<byte>, out: seq<byte>, p: nat, o: nat, sizes: seq<nat>,
                  elem: nat, tail: nat)
    requires Remaining(c, data, stream, out, p, o, sizes, elem, tail) && sizes != []
    ensures sizes[0] % 8 == 0 && p + Bytes(sizes[0], elem) <= |data|
    ensures o + |Frame(c, data[p..p + Bytes(sizes[0], elem)], sizes[0], elem)| <= |out|
  {
    var m := Bytes(sizes[0], elem);
    assert data[p..][..m] == data[p..p + m];
  }

  lemma FrameStored(c: Codec, data: seq<byte>, stream: seq<byte>, before: seq<byte>, after: seq<byte>, p: nat, o: nat,
                    sizes: seq<nat>, elem: nat, tail: nat)
    requires Remaining(c, data, stream, before, p, o, sizes, elem, tail) && sizes != []
    requires sizes[0] % 8 == 0 && p + Bytes(sizes[0], elem) <= |data|
    requires Stored(before, after, o, Frame(c, data[p..p + Bytes(sizes[0], elem)], sizes[0], elem))
    ensures var m := Bytes(sizes[0], elem);
            Remaining(c, data, stream, after, p + m, o + |Frame(c, data[p..p + m], sizes[0], elem)|, sizes[1..], elem, tail)
  {
    hide Frame, Bytes;
    var m := Bytes(sizes[0], elem);
    var frame := Frame(c, data[p..p + m], sizes[0], elem);
    assert data[p..][..m] == data[p..p + m] && data[p..][m..] == data[p + m..];
    assert after[..o + |frame|] == before[..o] + frame;
    assert before[..o] + (frame + Compress(c, data[p + m..], sizes[1..], elem, tail))
        == (before[..o] + frame) + Compress(c, data[p + m..], sizes[1..], elem, tail);
  }

  // ------------------------------------------------------------------------------------------------
  // Decompression of a stream that is well formed

  method ReadUint32BE(inp: array<byte>, at: nat) returns (num: nat)
    requires at + 4 <= inp.Length
    ensures num == ReadBE(inp[at..])
  {
    var cp := 1;
    num := FromByte(inp[at + 3]) * cp;
    cp := cp * 0x100;
    num := num + FromByte(inp[at + 2]) * cp;
    cp := cp * 0x100;
    num := num + FromByte(inp[at + 1]) * cp;
    cp := cp * 0x100;
    num := num + FromByte(inp[at]) * cp;
  }

  /** Decompress and bit-unshuffle one block. */
  method DecompressBlock(c: Codec, chain: Chain, inp: array<byte>, out: array<byte>, n: nat, elem: nat,
                         ghost p0: nat, ghost q0: nat, ghost stream: seq<byte>, ghost block: seq<byte>, ghost used: nat)
    returns (nbytes: int)
    requires chain.Valid() && inp != out && n % 8 == 0
    requires p0 == chain.Input() && p0 <= inp.Length && stream == inp[p0..]
    requires DecodeFrame(c, stream, n, elem) == Good(block, used)
    requires q0 == chain.Output() && q0 + Bytes(n, elem) <= out.Length
    modifies chain, out
    ensures chain.Valid() && nbytes == used && chain.Input() == p0 + used && chain.Output() == q0 + Bytes(n, elem)
    ensures Stored(old(out[..]), out[..], q0, block)
  {
    hide Bytes, ReadBE, Unshuffle;
    var iter, p := chain.GetIn();
    var header := ReadUint32BE(inp, p);
    assert inp[p..] == stream;
    var fromHeader := AsInt32(header);
    chain.SetNextIn(iter, p + fromHeader + 4);
    var q := chain.GetOut(iter);
    chain.SetNextOut(iter, q + Bytes(n, elem));
    assert inp[p + 4..] == stream[4..];
    var decoded := c.decompress(inp[p + 4..], Bytes(n, elem));
    var unshuffled := UnshuffleBlock(decoded.value.data, n, elem);
    CopyBytes(unshuffled, out, q);
    nbytes := decoded.value.consumed + 4;
  }

  /** The blocks written so far and what the rest of the stream decompresses to are the whole of the data. */
  predicate Decoding(c: Codec, stream: seq<byte>, data: seq<byte>, total: nat, out: seq<byte>, p: nat, o: nat,
                     sizes: seq<nat>, elem: nat, tail: nat) {
    && Octets(sizes) && p <= |stream| && p <= total && o <= |data| <= |out| && out[..o] == data[..o]
    && Decompress(c, stream[p..], sizes, elem, tail) == Good(data[o..], total - p)
  }

  lemma NextBlock(c: Codec, stream: seq<byte>, data: seq<byte>, total: nat, out: seq<byte>, p: nat, o: nat,
                  sizes: seq<nat>, elem: nat, tail: nat) returns (block: seq<byte>, used: nat)
    requires Decoding(c, stream, data, total, out, p, o, sizes, elem, tail) && sizes != []
    ensures sizes[0] % 8 == 0 && DecodeFrame(c, stream[p..], sizes[0], elem) == Good(block, used)
    ensures o + |block| <= |data| && block == data[o..o + |block|] && |block| == Bytes(sizes[0], elem)
    ensures p + used <= |stream| && p + used <= total && Octets(sizes[1..])
    ensures Decompress(c, stream[p + used..], sizes[1..], elem, tail) == Good(data[o + |block|..], total - p - used)
  {
    hide Bytes, DecodeFrame;
    var frame := DecodeFrame(c, stream[p..], sizes[0], elem);
    block, used := frame.data, frame.consumed;
    assert stream[p..][used..] == stream[p + used..];
    var more := Decompress(c, stream[p + used..], sizes[1..], elem, tail);
    assert data[o..] == block + more.data;
    assert data[o + |block|..] == data[o..][|block|..];
    assert data[o..o + |block|] == data[o..][..|block|];
  }

  method DecompressNext(c: Codec, chain: Chain, inp: array<byte>, out: array<byte>, n: nat, elem: nat, ghost stream: seq<byte>,
                        ghost data: seq<byte>, ghost total: nat, count: nat, ghost sizes: seq<nat>, ghost tail: nat)
    returns (after: nat)
    requires chain.Valid() && inp != out && inp[..] == stream && chain.Input() == count
    requires sizes != [] && sizes[0] == n
    requires Decoding(c, stream, data, total, out[..], count, chain.Output(), sizes, elem, tail)
    modifies chain, out
    ensures chain.Valid() && chain.Input() == after && inp[..] == stream
    ensures Decoding(c, stream, data, total, out[..], after, chain.Output(), sizes[1..], elem, tail)
  {
    hide Bytes, DecodeFrame, Decompress;
    ghost var before, o := out[..], chain.Output();
    ghost var block, used := NextBlock(c, stream, data, total, before, count, o, sizes, elem, tail);
    assert inp[count..] == stream[count..];
    var nbytes := DecompressBlock(c, chain, inp, out, n, elem, count, o, stream[count..], block, used);
    assert inp[..] == stream;
    assert out[..o + |block|] == before[..o] + block;
    assert data[..o + |block|] == data[..o] + block;
    after := count + nbytes;
  }

  /** Whatever the stream holds, if it decompresses at all: the data, and the number of bytes it took. */
  method DecompressLz4(c: Codec, inp: array<byte>, out: array<byte>, size: nat, elem: nat, blockSize: nat) returns (count: int)
    requires inp != out && elem > 0 && out.Length == Bytes(size, elem)
    requires var block := ChosenBlockSize(blockSize, elem);
             block % 8 == 0 ==>
               && Octets(BlockSizes(size, block))
               && Decompress(c, inp[..], BlockSizes(size, block), elem, Bytes(size % 8, elem)).Good?
    modifies out
    ensures ChosenBlockSize(blockSize, elem) % 8 != 0 ==> count == BAD_BLOCK_SIZE && out[..] == old(out[..])
    ensures ChosenBlockSize(blockSize, elem) % 8 == 0 ==>
              && count >= 0
              && Decompress(c, inp[..], BlockSizes(size, ChosenBlockSize(blockSize, elem)), elem, Bytes(size % 8, elem))
                 == Good(out[..], count)
  {
    hide Bytes, Decompress, BlockSizes, Octets, InputSize;
    var block := ChosenBlockSize(blockSize, elem);
    if block % 8 != 0 { return BAD_BLOCK_SIZE; }
    ghost var stream := inp[..];
    ghost var tail := Bytes(size % 8, elem);
    ghost var result := Decompress(c, stream, BlockSizes(size, block), elem, tail);
    ghost var data, total := result.data, result.consumed;
    WholeSize(size, block, elem);
    assert stream[0..] == stream && data[0..] == data;
    var chain := new Chain(0, 0);
    var left: nat := size;
    var read: nat := 0;
    while left >= block
      invariant chain.Valid() && fresh(chain) && inp[..] == stream
      invariant left % 8 == size % 8 && chain.Input() == read
      invariant Decoding(c, stream, data, total, out[..], read, chain.Output(), BlockSizes(left, block), elem, tail)
    {
      FullBlock(left, block);
      read := DecompressNext(c, chain, inp, out, block, elem, stream, data, total, read, BlockSizes(left, block), tail);
      LessAWholeBlock(left, block);
      left := left - block;
    }
    PartialBlock(left, block);
    if left - left % 8 > 0 {
      read := DecompressNext(c, chain, inp, out, left - left % 8, elem, stream, data, total, read, BlockSizes(left, block), tail);
    }
    count := DecompressTail(c, chain, inp, out, size, elem, stream, data, total, read);
  }

  lemma WholeSize(size: nat, block: nat, elem: nat)
    requires block > 0 && block % 8 == 0
    ensures InputSize(BlockSizes(size, block), elem, Bytes(size % 8, elem)) == Bytes(size, elem)
  {
    BlocksCover(size, block);
    InputIsTotal(BlockSizes(size, block), elem, Bytes(size % 8, elem));
    AtRows(size - size % 8, size % 8, elem, 0);
  }

  method DecompressTail(c: Codec, chain: Chain, inp: array<byte>, out: array<byte>, size: nat, elem: nat,
                        ghost stream: seq<byte>, ghost data: seq<byte>, ghost total: nat, count: nat)
    returns (after: nat)
    requires chain.Valid() && inp != out && inp[..] == stream && chain.Input() == count && |data| == out.Length
    requires Decoding(c, stream, data, total, out[..], count, chain.Output(), [], elem, Bytes(size % 8, elem))
    modifies chain, out
    ensures after == total && out[..] == data && inp[..] == stream
  {
    hide Bytes;
    ghost var before, o := out[..], chain.Output();
    var iter, p := chain.GetIn();
    var leftover := Bytes(size % 8, elem);
    chain.SetNextIn(iter, p + leftover);
    var q := chain.GetOut(iter);
    chain.SetNextOut(iter, q + leftover);
    assert inp[p..p + leftover] == stream[p..][..leftover] == data[o..];
    CopyBytes(inp[p..p + leftover], out, q);
    assert out[..] == before[..o] + data[o..];
    after := count + leftover;
  }
}
