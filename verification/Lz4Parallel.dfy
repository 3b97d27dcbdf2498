/**
  Compression and decompression as jobs for the I/O chain: whatever the interleaving of the workers, the parallel
  run leaves the frames, or the decompressed blocks, that the block-by-block definition gives.
*/
module Lz4Parallel {
  import opened BitMatrix
  import opened Lz4Framing
  import IoChain

  // ------------------------------------------------------------------------------------------------
  // Compression

  /** Iteration i compresses the next sizes[i] elements. */
  function CompressJob(c: Codec, data: seq<byte>, sizes: seq<nat>, elem: nat): IoChain.Job {
    IoChain.Job(0, 0, |sizes|,
                (i: nat, p: nat) => if i < |sizes| then p + Bytes(sizes[i], elem) else p,
                (i: nat, p: nat) => if i < |sizes| && sizes[i] % 8 == 0 && p + Bytes(sizes[i], elem) <= |data|
                  then Frame(c, data[p..p + Bytes(sizes[i], elem)], sizes[i], elem) else [])
  }

  lemma CompressStep(c: Codec, data: seq<byte>, sizes: seq<nat>, elem: nat, k: nat, p: nat)
    requires k < |sizes| && sizes[k] % 8 == 0 && p + Bytes(sizes[k], elem) <= |data|
    ensures var m := Bytes(sizes[k], elem);
            && CompressJob(c, data, sizes, elem).advance(k, p) == p + m
            && CompressJob(c, data, sizes, elem).block(k, p) == Frame(c, data[p..p + m], sizes[k], elem)
  {
  }

  lemma {:induction false} SerialCompress(c: Codec, data: seq<byte>, sizes: seq<nat>, elem: nat, tail: nat, k: nat)
    requires Octets(sizes) && |data| == InputSize(sizes, elem, tail) && k <= |sizes|
    ensures var job := CompressJob(c, data, sizes, elem);
            && IoChain.In(job, k) <= |data| && Octets(sizes[k..])
            && |data[IoChain.In(job, k)..]| == InputSize(sizes[k..], elem, tail)
            && IoChain.Serial(job, k) + Compress(c, data[IoChain.In(job, k)..], sizes[k..], elem, tail)
               == Compress(c, data, sizes, elem, tail)
    decreases k
  {
    hide Frame, Bytes, Compress;
    var job := CompressJob(c, data, sizes, elem);
    assert job.in0 == 0;
    hide CompressJob;
    if k == 0 {
      assert sizes[0..] == sizes && data[0..] == data;
    } else {
      SerialCompress(c, data, sizes, elem, tail, k - 1);
      var p := IoChain.In(job, k - 1);
      OneMoreFrame(c, data, sizes, elem, tail, k - 1, p, IoChain.Serial(job, k - 1));
      CompressStep(c, data, sizes, elem, k - 1, p);
    }
  }

  lemma OneMoreFrame(c: Codec, data: seq<byte>, sizes: seq<nat>, elem: nat, tail: nat, k: nat, p: nat, done: seq<byte>)
    requires k < |sizes| && Octets(sizes[k..]) && p <= |data| && |data[p..]| == InputSize(sizes[k..], elem, tail)
    ensures var m := Bytes(sizes[k], elem);
            && p + m <= |data| && sizes[k] % 8 == 0 && Octets(sizes[k + 1..])
            && |data[p + m..]| == InputSize(sizes[k + 1..], elem, tail)
            && done + Compress(c, data[p..], sizes[k..], elem, tail)
               == (done + Frame(c, data[p..p + m], sizes[k], elem)) + Compress(c, data[p + m..], sizes[k + 1..], elem, tail)
  {
    hide Frame, Bytes;
    var m := Bytes(sizes[k], elem);
    assert sizes[k..][0] == sizes[k] && sizes[k..][1..] == sizes[k + 1..];
    assert data[p..][..m] == data[p..p + m] && data[p..][m..] == data[p + m..];
  }

  /** The parallel run writes the compressed stream, all but the tail, and nothing else. */
  lemma ParallelCompress(c: Codec, data: seq<byte>, sizes: seq<nat>, elem: nat, tail: nat, mem0: nat -> byte, schedule: seq<nat>)
    requires Octets(sizes) && |data| == InputSize(sizes, elem, tail)
    requires Stuck(CompressJob(c, data, sizes, elem), mem0, schedule)
    ensures var s := Final(CompressJob(c, data, sizes, elem), mem0, schedule);
            var frames := IoChain.Serial(CompressJob(c, data, sizes, elem), |sizes|);
            && |data| >= tail
            && Compress(c, data, sizes, elem, tail) == frames + data[|data| - tail..]
            && (forall k :: 0 <= k < |frames| ==> s.mem(k) == frames[k])
            && (forall a: nat :: a >= |frames| ==> s.mem(a) == mem0(a))
  {
    var job := CompressJob(c, data, sizes, elem);
    assert job.out0 == 0 && job.total == |sizes|;
    hide CompressJob, Frame, Bytes, Stuck, Final;
    StuckIsSerial(job, mem0, schedule);
    SerialCompress(c, data, sizes, elem, tail, |sizes|);
    assert sizes[|sizes|..] == [];
  }

  // ------------------------------------------------------------------------------------------------
  // Decompression

  /** Iteration i reads the header to find its successor's input, then decompresses its own block. */
  function DecompressJob(c: Codec, stream: seq<byte>, sizes: seq<nat>, elem: nat): IoChain.Job {
    IoChain.Job(0, 0, |sizes|,
                (i: nat, p: nat) => if p + 4 <= |stream| && AsInt32(ReadBE(stream[p..])) >= 0
                  then p + AsInt32(ReadBE(stream[p..])) + 4 else p,
                (i: nat, p: nat) => if i < |sizes| && sizes[i] % 8 == 0 && p <= |stream| then
                    (match DecodeFrame(c, stream[p..], sizes[i], elem)
                     case Good(block, _) => block
                     case _ => [])
                  else [])
  }

  /** What one iteration does if the frame it finds is good. */
  lemma DecompressStep(c: Codec, stream: seq<byte>, sizes: seq<nat>, elem: nat, k: nat, p: nat, block: seq<byte>, used: nat)
    requires k < |sizes| && sizes[k] % 8 == 0 && p + 4 <= |stream| && used >= 4
    requires DecodeFrame(c, stream[p..], sizes[k], elem) == Good(block, used)
    requires AsInt32(ReadBE(stream[p..])) + 4 == used
    ensures DecompressJob(c, stream, sizes, elem).advance(k, p) == p + used
    ensures DecompressJob(c, stream, sizes, elem).block(k, p) == block
  {
  }

  /** A stream that decompresses does so block by block. */
  lemma {:induction false} SerialDecompress(c: Codec, stream: seq<byte>, data: seq<byte>, total: nat, sizes: seq<nat>, elem: nat,
                                            tail: nat, k: nat)
    requires Octets(sizes) && Decompress(c, stream, sizes, elem, tail) == Good(data, total) && k <= |sizes|
    ensures AfterBlocks(c, stream, data, total, sizes, elem, tail, k)
    decreases k
  {
    hide *;
    if k == 0 {
      NotStarted(c, stream, data, total, sizes, elem, tail);
    } else {
      SerialDecompress(c, stream, data, total, sizes, elem, tail, k - 1);
      DecompressNext(c, stream, data, total, sizes, elem, tail, k - 1);
    }
  }

  /** The serial run has read and written what the first k blocks need. */
  predicate AfterBlocks(c: Codec, stream: seq<byte>, data: seq<byte>, total: nat, sizes: seq<nat>, elem: nat, tail: nat, k: nat) {
    var job := DecompressJob(c, stream, sizes, elem);
    && Halfway(c, stream, data, total, sizes, elem, tail, k, IoChain.In(job, k), IoChain.Out(job, k))
    && IoChain.Serial(job, k) == data[..IoChain.Out(job, k)]
  }

  lemma JobStarts(job: IoChain.Job)
    ensures IoChain.In(job, 0) == job.in0 && IoChain.Out(job, 0) == job.out0 && IoChain.Serial(job, 0) == []
  {
  }

  lemma NotStarted(c: Codec, stream: seq<byte>, data: seq<byte>, total: nat, sizes: seq<nat>, elem: nat, tail: nat)
    requires Octets(sizes) && Decompress(c, stream, sizes, elem, tail) == Good(data, total)
    ensures AfterBlocks(c, stream, data, total, sizes, elem, tail, 0)
  {
    var job := DecompressJob(c, stream, sizes, elem);
    assert job.in0 == 0 && job.out0 == 0;
    hide Decompress, Octets, DecompressJob, IoChain.In, IoChain.Out, IoChain.Serial;
    JobStarts(job);
    assert sizes[0..] == sizes && data[0..] == data && stream[0..] == stream;
  }

  /** One more iteration of the serial run. */
  lemma DecompressNext(c: Codec, stream: seq<byte>, data: seq<byte>, total: nat, sizes: seq<nat>, elem: nat, tail: nat, k: nat)
    requires k < |sizes| && AfterBlocks(c, stream, data, total, sizes, elem, tail, k)
    ensures AfterBlocks(c, stream, data, total, sizes, elem, tail, k + 1)
  {
    hide Bytes, DecodeFrame, AsInt32, ReadBE, Decompress, Octets;
    var job := DecompressJob(c, stream, sizes, elem);
    var p, o := IoChain.In(job, k), IoChain.Out(job, k);
    var used := OneMoreBlock(c, stream, data, total, sizes, elem, tail, k, p, o);
    var m := Bytes(sizes[k], elem);
    Inside(c, stream, data, total, sizes, elem, tail, k, p, o);
    Inside(c, stream, data, total, sizes, elem, tail, k + 1, p + used, o + m);
    hide Halfway;
    DecompressStep(c, stream, sizes, elem, k, p, data[o..o + m], used);
    hide DecompressJob;
    assert data[..o] + data[o..o + m] == data[..o + m];
  }

  lemma Inside(c: Codec, stream: seq<byte>, data: seq<byte>, total: nat, sizes: seq<nat>, elem: nat, tail: nat, k: nat, p: nat, o: nat)
    requires Halfway(c, stream, data, total, sizes, elem, tail, k, p, o)
    ensures k <= |sizes| && p <= |stream| && o <= |data|
  {
  }

  /** After k blocks: p bytes of the stream have been read, o bytes of the data written, and the rest decompresses to the rest. */
  predicate Halfway(c: Codec, stream: seq<byte>, data: seq<byte>, total: nat, sizes: seq<nat>, elem: nat, tail: nat,
                    k: nat, p: nat, o: nat) {
    && k <= |sizes| && Octets(sizes[k..])
    && p <= |stream| && p <= total && o <= |data|
    && Decompress(c, stream[p..], sizes[k..], elem, tail) == Good(data[o..], total - p)
  }

  /** A good frame takes as many bytes as its header says. */
  lemma FrameIsFramed(c: Codec, stream: seq<byte>, n: nat, elem: nat)
    requires n % 8 == 0 && DecodeFrame(c, stream, n, elem).Good?
    ensures 4 <= |stream| && 4 <= DecodeFrame(c, stream, n, elem).consumed <= |stream|
    ensures AsInt32(ReadBE(stream)) + 4 == DecodeFrame(c, stream, n, elem).consumed
  {
  }

  lemma OneMoreBlock(c: Codec, stream: seq<byte>, data: seq<byte>, total: nat, sizes: seq<nat>, elem: nat, tail: nat,
                     k: nat, p: nat, o: nat) returns (used: nat)
    requires k < |sizes| && Halfway(c, stream, data, total, sizes, elem, tail, k, p, o)
    ensures var m := Bytes(sizes[k], elem);
            && Halfway(c, stream, data, total, sizes, elem, tail, k + 1, p + used, o + m)
            && sizes[k] % 8 == 0 && p + 4 <= |stream| && 4 <= used
            && AsInt32(ReadBE(stream[p..])) + 4 == used
            && DecodeFrame(c, stream[p..], sizes[k], elem) == Good(data[o..o + m], used)
  {
    hide Bytes, DecodeFrame, ReadBE, AsInt32;
    var s, m := stream[p..], Bytes(sizes[k], elem);
    assert sizes[k..][0] == sizes[k] && sizes[k..][1..] == sizes[k + 1..];
    var block := DecodeFrame(c, s, sizes[k], elem).data;
    used := DecodeFrame(c, s, sizes[k], elem).consumed;
    FrameIsFramed(c, s, sizes[k], elem);
    assert s[used..] == stream[p + used..];
    var more := Decompress(c, s[used..], sizes[k + 1..], elem, tail).data;
    assert data[o..] == block + more;
    assert data[o..][..m] == data[o..o + m] && data[o..][m..] == data[o + m..];
  }

  /**
    Whatever the stream holds, if it decompresses at all: a finished parallel run has written the data, all but the
    tail, and nothing else.
  */
  lemma ParallelDecompress(c: Codec, stream: seq<byte>, data: seq<byte>, total: nat, sizes: seq<nat>, elem: nat, tail: nat,
                           mem0: nat -> byte, schedule: seq<nat>)
    requires Octets(sizes) && Decompress(c, stream, sizes, elem, tail) == Good(data, total)
    requires Stuck(DecompressJob(c, stream, sizes, elem), mem0, schedule)
    ensures var s := Final(DecompressJob(c, stream, sizes, elem), mem0, schedule);
            && |data| >= tail
            && (forall k :: 0 <= k < |data| - tail ==> s.mem(k) == data[k])
            && (forall a: nat :: a >= |data| - tail ==> s.mem(a) == mem0(a))
  {
    var job := DecompressJob(c, stream, sizes, elem);
    assert job.out0 == 0 && job.total == |sizes|;
    hide DecompressJob, Frame, Bytes, Stuck, Final, DecodeFrame;
    StuckIsSerial(job, mem0, schedule);
    SerialDecompress(c, stream, data, total, sizes, elem, tail, |sizes|);
    assert sizes[|sizes|..] == [];
  }

  /** In particular it undoes compression. */
  lemma ParallelRoundTrip(c: Codec, limit: nat, data: seq<byte>, sizes: seq<nat>, elem: nat, tail: nat, rest: seq<byte>,
                          mem0: nat -> byte, schedule: seq<nat>)
    requires Lawful(c, limit) && Octets(sizes) && |data| == InputSize(sizes, elem, tail) && BlocksFit(sizes, elem, limit)
    requires Stuck(DecompressJob(c, Compress(c, data, sizes, elem, tail) + rest, sizes, elem), mem0, schedule)
    ensures var s := Final(DecompressJob(c, Compress(c, data, sizes, elem, tail) + rest, sizes, elem), mem0, schedule);
            && |data| >= tail
            && (forall k :: 0 <= k < |data| - tail ==> s.mem(k) == data[k])
            && (forall a: nat :: a >= |data| - tail ==> s.mem(a) == mem0(a))
  {
    hide Decompress, DecompressJob, Stuck, Final, Compress, Lawful, InputSize, BlocksFit, Octets;
    CompressRoundTrip(c, limit, data, sizes, elem, tail, rest);
    ParallelDecompress(c, Compress(c, data, sizes, elem, tail) + rest, data, |Compress(c, data, sizes, elem, tail)|, sizes, elem,
                       tail, mem0, schedule);
  }

  // ------------------------------------------------------------------------------------------------
  // Runs that have ended

  ghost predicate Stuck(job: IoChain.Job, mem0: nat -> byte, schedule: seq<nat>) {
    forall i: nat :: !IoChain.CanStep(job, Final(job, mem0, schedule), i)
  }

  function Final(job: IoChain.Job, mem0: nat -> byte, schedule: seq<nat>): (s: IoChain.Chain)
    ensures IoChain.Shaped(s)
  {
    IoChain.Run(job, IoChain.Initial(job, mem0), schedule)
  }

  lemma StuckIsSerial(job: IoChain.Job, mem0: nat -> byte, schedule: seq<nat>)
    requires job.out0 == 0 && Stuck(job, mem0, schedule)
    ensures var s, out := Final(job, mem0, schedule), IoChain.Serial(job, job.total);
            && (forall k :: 0 <= k < |out| ==> s.mem(k) == out[k])
            && (forall a: nat :: a >= |out| ==> s.mem(a) == mem0(a))
  {
    var s, out := Final(job, mem0, schedule), IoChain.Serial(job, job.total);
    forall i: nat ensures !IoChain.CanStep(job, IoChain.Run(job, IoChain.Initial(job, mem0), schedule), i) {
      assert !IoChain.CanStep(job, s, i);
    }
    IoChain.StuckMeansSerial(job, mem0, schedule);
    forall k | 0 <= k < |out| ensures s.mem(k) == out[k] {
      assert s.mem(job.out0 + k) == out[k];
    }
  }
}
