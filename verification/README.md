# Model of the CHIME FRB I/O library

`ch_frb_io` moves the intensity data of a radio telescope: it sends them as
packets, assembles them again on the other side, keeps the recent past at ever
coarser resolution in a ring buffer, and compresses, writes and reads files.
This project models the parts of it in which an error would be hard to see, and
proves what they are for.

* **Ring buffer** (`Telescope`, `TelescopeLaws`, `RingMachine`, `RingRuns`,
  `RingTheorems`, `DeepRings`, `RingCalls`, `RingBuffer`, `Wrapping`): one push into the
  telescoping levels as a function, the steps that the assembler, downstream and
  mask threads take between acquiring and releasing the lock as a state machine,
  and the class, whose methods are proved to take the machine's steps.
* **Chunks and packets** (`PacketFormat`, `PacketEncode`, `ChunkEncode`, `BeamSplit`,
  `ChunkAssembly`, `ChunkDelivery`, `QueuedCells`): from a chunk of samples to bytes on
  the wire, to the parts of each beam, and back to samples.
* **Receiving threads** (`UdpPackets`, `ListSwapping`, `BeamAssembly`, `UdpPipeline`,
  `PacketVerdicts`, `RegularEnd`):
  the lists of received packets, the ring through which two threads swap them,
  what becomes of one packet, and all steps of the network thread, the assembler
  thread and the readers of the ring buffers in any interleaving, up to the regular end.
* **Kernels** (`EncodeBound`, `DownsampleKernels`, `RfiMask`, `FastLanes`, `FastKernels`,
  `FastEncode`, `FastDecode`): decoding, downsampling and re-encoding as loops, and
  the same on registers of eight lanes.
* **Bitshuffle** (`BitMatrix`, `BitshuffleScalar`, `BitshuffleSimd`, `BitshuffleUnpack`,
  `BitshufflePasses`): the transposes of bit matrices, scalar and vectorized.
* **Compressed streams** (`Lz4Framing`, `Lz4Chain`, `IoChain`, `Lz4Parallel`): blocks and
  their headers, the blocked loops, the protocol of locks with which threads work
  on blocks in parallel, and its application to compression.
* **Output** (`OutputDevice`): the queue of write requests, its threads, and how it ends.
* **Files** (`StreamWriter`, `StreamRuns`, `StreamClosing`, `StreamReader`, `IntensityFile`): the buffered
  writer and the cached reader of `stream.py`, and queries of files with gaps.
* **Shared** (`Options`, `Products`).

A method stands for a loop or an object that the program updates in place, and
its contract says which function of its inputs it computes; lemmas are about
those functions. Machines list their events in a datatype; `Run` folds a list of
events, skips those that are not enabled, and theorems are about all lists.

## What does not hold

Some properties that the program, its comments or its callers rely on are not
true of the code. The model keeps the code as it is; each is stated with an
input for which it fails and the exact condition under which it holds.

* **More than four levels.** The constructor of the ring buffer accepts any number
  of levels, but a chunk of binning above 8 cannot be made (assembled_chunk.cpp:128-129),
  so a push throws as soon as four levels are full. `DeepRings.PushReadyIff` gives the
  condition for a push in a reachable state; `DeepRings.DeepBufferFails` reaches the
  failure for every configuration with more than four levels, with masks or without,
  and `DeepRings.ShallowBufferNeverFails` excludes it for all others.
* **Last FPGA count of a level** in the size report
  (assembled_chunk_ringbuf.cpp:242-247): it is taken from the first chunk of the
  level, so it is right if and only if there is only one
  (`RingTheorems.LevelMaxIsRightIff`, `RingRuns.LevelMaxIsWrong`).
* **Ending a stream that has received nothing** throws
  (assembled_chunk_ringbuf.cpp:684-687), and so the assembler thread, which ends
  all beams in turn, stops at the first beam without packets and leaves the beams
  after it open (intensity_network_stream.cpp:1177-1180). `RegularEnds.CancelledBeforePackets`
  is such a run. One stream ends if and only if it has a window whose two chunks can be
  pushed (`RingCalls.EndsRegularlyIff`), the thread if and only if all of them do
  (`RegularEnds.RegularEndIff`); without masks and with at most four levels this reads:
  if and only if every beam has had a packet (`RegularEnds.ShallowEndIff`).
* **Division by zero in decoding** (intensity_packet.cpp:41-49): the power-of-two
  test passes a number of samples of zero, by which the code then divides. This happens if
  and only if the earlier checks pass with that number
  (`PacketFormat.Decode`, `PacketFormat.HeaderThatDividesByZero`). The comment at
  lines 25-28 also promises positive numbers of beams and frequencies; zero is accepted
  (`PacketFormat.EmptyPacketIsAccepted`).
* **Division by zero in packet encoding** (intensity_packet.cpp:125-146): if and
  only if a block has valid samples and all of them are zero
  (`PacketEncode.EncodeBlock`, `PacketEncode.BlockThatDividesByZero`,
  `EncodeBound.PacketScaleIsPositiveIff`).
* **Fast and reference encoding differ** by one at ties above an even byte, and
  nowhere else (avx2_kernels.cpp:757-790; `FastEncode.DifferAtTies`,
  `FastEncode.FastIsReferenceButTies`); `FastEncode.TieHappens` is a block in which they do.
* **Room for a receive** (intensity_network_stream.cpp:856-857): lists reserve
  room for packets of 9000 bytes, but a receive asks for as many as are configured,
  and one more. `UdpPipeline.ReceiveFitsIff` gives the exact condition for all
  configurations; with the default limits of a list (ch_frb_io.hpp:382-383) it is that
  at most 9000 bytes are configured (`UdpPipeline.ReceiveFitsIffSmall`), as they are by default.
* **`end_stream(true)` does not wake an idle I/O thread**
  (output_device.cpp:249-251): when it finds the thread asleep with nothing
  pending, that thread sleeps on until a mask is reported, the stream is ended
  without waiting, or the thread is joined (`OutputDevices.LeftAsleepExactlyWhen`,
  `OutputDevices.SleepsOn`, `OutputDevices.EndThenJoin`).
* **`end_stream(true)` does not wait for the last write.** The header promises that it
  blocks until pending writes are complete (ch_frb_io.hpp:956); the code returns when
  the queues are empty, and the last request may still be being written
  (`OutputDevices.EndReturnsBeforeTheLastWrite`). It returns exactly when nothing is
  pending (`OutputDevices.OutputDevice.EndStream`); after a join nothing is being
  written (`OutputDevices.WritesAwake`).
* **The stream writer overwrites files** (ch_frb_io/stream.py:184-206): a file is named
  after the rounded time of the first element of the buffer, so two files can
  have one name, and a flush of an empty buffer opens a file under an outdated
  name, which discards one that was complete. Every writer ends with a flush.
  `StreamClosing.FinishedKeepsAllIff` is the exact condition on what is absorbed for
  chunks and this last flush, `StreamRuns.ChunksKeepAllIff` for chunks alone,
  `StreamRuns.RunConserves` and `StreamWriters.FlushConserves` speak of all runs;
  `StreamWriters.FinalFlushCanDiscard` and `StreamRuns.EqualTimesAreLost` show losses.
* **Times with a common step** can be rejected (intensity_hdf5_file.cpp:84-114): the error
  speaks of integer multiples of a common step, but only the smallest gap is tried, so gaps of
  2 and 3 are refused (`IntensityFiles.CommonStepIsNotEnough`). `IntensityFiles.InitTimes`
  says exactly which times are accepted.
* **"Impossible" branch of the time map** (intensity_hdf5_file.cpp:109): it is indeed never
  taken (`IntensityFiles.StepIsPossible`, `IntensityFiles.InitTimes`).

## Model

| member | source | states |
|---|---|---|
| `RingMachine.Configure` | assembled_chunk_ringbuf.cpp:19-62 | the constructor accepts exactly the parameters that pass its checks and its closing self-check; level 0 then has the capacity for downstream and the first telescoping one together, level k the k-th, and the downstream thread may lag by the former |
| `RingMachine.FirstChunk` | assembled_chunk_ringbuf.cpp:276-285 | a stream begins with the chunk of its first packet, rounded up to the next multiple of the alignment |
| `Telescope.PushKeepsTiling` | assembled_chunk_ringbuf.cpp:395-490 | one push never finds its two oldest chunks out of step; it keeps the levels, read deepest first, one gap-free run of chunks with the binning of their level, and loses nothing or exactly one chunk of the bottom level |
| `TelescopeLaws.PushConserves` | assembled_chunk_ringbuf.cpp:395-490 | the contents before a push, followed by the pushed chunk, are what was lost (the oldest chunk of a full bottom level, or nothing) followed by the contents after it, in order |
| `TelescopeLaws.PlanReadyIff` | assembled_chunk_ringbuf.cpp:411-455 | a push can be planned if and only if every chunk that has to leave a full level has its mask (when masks are kept) and no chunk of binning 16 would be needed, that is, unless there is a fifth level and the first four are full |
| `TelescopeLaws.PushKeepsMaskMeaning` | assembled_chunk_ringbuf.cpp:437-454 | after a push each mask bit of a chunk of any level is still the AND of the original bits it covers |
| `TelescopeLaws.FullBottomKeepsHistory` | assembled_chunk_ringbuf.cpp:411-490 | with a full bottom level the buffer spans at least the sum over the other levels of (capacity - 1) times 2^level, plus the whole bottom level |
| `TelescopeLaws.BottomStaysFull` | assembled_chunk_ringbuf.cpp:468-490 | a bottom level that has been full once stays full |
| `RingMachine.StepKeeps` | assembled_chunk_ringbuf.cpp:271-333 | every atomic step of the assembler, downstream and mask threads keeps the invariant of rings, cursor and window, and an enabled step always has what it relies on |
| `RingMachine.PlanSurvivesFill` | assembled_chunk_ringbuf.cpp:395-397 | a plan made without the lock is still the right one at commit time, although masks may have been filled in between |
| `RingMachine.CatchupKeeps` | assembled_chunk_ringbuf.cpp:468-501 | the cursor never points below the oldest level-0 entry and never lags more than the configured distance, even after a push that removes two entries; what is skipped is counted as dropped |
| `RingTheorems.EveryRunIsSound` | assembled_chunk_ringbuf.cpp:557-633 | after every interleaving: all assertions of the self-check hold, the buffer is one span of the required length, every chunk is made of exactly the packets that hit it, masks are ANDs, deliveries increase with gaps exactly where drops were counted, what was dropped was followed by as many younger chunks as the downstream thread may lag, and packets, window and final FPGA count are as they should be |
| `RingTheorems.SelfCheckHolds` | assembled_chunk_ringbuf.cpp:557-633 | no assertion of the runtime self-check can fail |
| `RingTheorems.BufferIsOneSpan` | assembled_chunk_ringbuf.cpp:594-618 | the stored chunks are one contiguous run that ends at the last pushed chunk, and once anything has been evicted it is never shorter than the floor |
| `RingTheorems.MasksAreAndsOf` | assembled_chunk.cpp:537-545 | bit b of a level-l mask is the AND of the 2^l level-0 bits it covers |
| `RingTheorems.DeliveryAccountHolds` | assembled_chunk_ringbuf.cpp:650-680 | queued equals delivered plus dropped plus ready; delivered chunks have increasing indices, and what is skipped between two of them was dropped |
| `RingTheorems.PushDropsExcess` | assembled_chunk_ringbuf.cpp:496-501 | a push drops, of the chunks that have not been taken, the pushed one included, the oldest beyond the allowed lag, and none if there are no more than that |
| `RingTheorems.GetDelivers` | assembled_chunk_ringbuf.cpp:650-680 | the downstream call delivers the oldest chunk that has been pushed and neither taken nor dropped, with the packets that hit it, unless there is none |
| `RingTheorems.FpgaCountsIncrease` | assembled_chunk_ringbuf.cpp:495-545 | the flushed and the retrieved FPGA count strictly increase |
| `RingTheorems.WindowAccountHolds` | assembled_chunk_ringbuf.cpp:296-333 | each logged packet is one hit or one miss, the two active chunks are adjacent and follow the last pushed one, and the final FPGA count is the end of the newest chunk |
| `RingTheorems.EndBeforeFirstPacket` | assembled_chunk_ringbuf.cpp:684-691 | ending a stream changes nothing (the program throws) if and only if there are no active chunks, which is so before the first packet and after the end |
| `RingTheorems.StoredOnce` | assembled_chunk_ringbuf.cpp:115-125 | a stored chunk is the only one, on whatever level, that begins at its FPGA count |
| `RingTheorems.LevelMaxIsRightIff` | assembled_chunk_ringbuf.cpp:242-247 | the last FPGA count reported for a level is that of its data if and only if the level holds a single chunk |
| `RingRuns.LevelMaxIsWrong` | assembled_chunk_ringbuf.cpp:242-247 | every configuration reaches a state with two chunks in level 0, for which the reported value is too small |
| `DeepRings.DeepBufferHoldsLittle` | assembled_chunk.cpp:128-129 | with more than four levels no chunk ever gets below the fourth, and no more chunks are ever pushed than fill the first four |
| `DeepRings.PushReadyIff` | assembled_chunk_ringbuf.cpp:411-455 | in a reachable state the next push succeeds if and only if the masks it needs are there (if masks are kept) and it is not too deep; with the masks there a push that is too deep fails for its binning, and no other does |
| `DeepRings.DeepBufferFails` | assembled_chunk_ringbuf.cpp:443-454 | every configuration with more than four levels, with or without masks, reaches a state in which the push fails for its binning |
| `DeepRings.ShallowBufferNeverFails` | assembled_chunk_ringbuf.cpp:411-455 | with at most four levels no push of a reachable state fails for its binning; it succeeds if and only if no masks are kept or those it needs are there |
| `DeepRings.FiveLevelsAreAccepted` | assembled_chunk_ringbuf.cpp:19-62 | the constructor accepts five levels of two chunks, and that buffer reaches the failing state |
| `DeepRings.ShallowCloses` | assembled_chunk_ringbuf.cpp:684-711 | without masks and with at most four levels every stream with an open window can be ended regularly |
| `RingCalls.PacketResultIsDealt` | assembled_chunk_ringbuf.cpp:271-333 | the explicit result of one uninterrupted packet call is what the steps of the machine give |
| `RingCalls.OnePacketOneStep` | assembled_chunk_ringbuf.cpp:300-333 | a packet is logged once, as a hit exactly if it falls in the window after at most one advance; the window advances exactly if the packet is two or more chunks ahead and the push succeeds |
| `RingCalls.EndPushesBoth` | assembled_chunk_ringbuf.cpp:684-711 | a regular end pushes both active chunks in order and sets the final FPGA count to the end of the second |
| `RingCalls.EndsRegularlyIff` | assembled_chunk_ringbuf.cpp:684-711 | ending a stream raises its flag if and only if there is a window and both of its chunks can be pushed, the second after the first |
| `RingCalls.ClosableSurvives` | assembled_chunk_ringbuf.cpp:684-711 | no step of the downstream or the mask thread makes such an end impossible |
| `RingBufferClass.AssembledChunkRingbuf.constructor` | assembled_chunk_ringbuf.cpp:13-66 | a new object stands for the initial state of the machine |
| `RingBufferClass.AssembledChunkRingbuf.PlanPush` | assembled_chunk_ringbuf.cpp:395-455 | the loop that builds push and pop lists computes exactly the specified plan, or fails for the specified reason, and changes nothing |
| `RingBufferClass.AssembledChunkRingbuf.UpdateLevel` | assembled_chunk_ringbuf.cpp:468-490 | clearing old slots and adding one modulo the capacity leaves the circular level holding the specified chunks and nothing else |
| `RingBufferClass.AssembledChunkRingbuf.ApplyLists` | assembled_chunk_ringbuf.cpp:468-490 | applying the lists level by level is the specified simultaneous change of all levels |
| `RingBufferClass.AssembledChunkRingbuf.PutAssembledChunk` | assembled_chunk_ringbuf.cpp:384-553 | a push stores the chunk, moves the cursor up to the allowed lag before the end if it is behind that, and counts one queued chunk and as many dropped as the cursor has moved; a push that cannot be planned changes nothing |
| `RingBufferClass.AssembledChunkRingbuf.PutUnassembledPacket` | assembled_chunk_ringbuf.cpp:271-333 | one packet takes the object to exactly the machine's state after that packet, and the event counts move with it |
| `RingBufferClass.AssembledChunkRingbuf.EndStream` | assembled_chunk_ringbuf.cpp:684-711 | ending the stream takes the object to the machine's ended state; without active chunks it is refused |
| `RingBufferClass.AssembledChunkRingbuf.GetAssembledChunk` | assembled_chunk_ringbuf.cpp:650-680 | the downstream call returns the next chunk and moves the cursor past it, exactly if fewer have been taken or dropped than pushed |
| `RingBufferClass.AssembledChunkRingbuf.FindAssembledChunk` | assembled_chunk_ringbuf.cpp:103-129 | the search reports past-the-end exactly after the end of the stream, finds the one stored chunk that begins at the count, and otherwise there is none on the levels searched |
| `BitMatrix.UnshuffleInverts` | bitshuffle/bitshuffle_core.c:302-320 | the gather and spread passes undo the full bit-matrix transpose, for every size and element width |
| `BitMatrix.ThreePassesShuffle` | bitshuffle/bitshuffle_core.c:218-240 | byte transpose, bit transpose and row transpose together send bit k of byte j of element i to bit i of row 8j+k |
| `BitMatrix.ShuffleIsBijective` | bitshuffle/bitshuffle_core.c:218-320 | shuffling and unshuffling are inverse to each other, in both orders |
| `BitshuffleScalar.TransposesBits` | bitshuffle/bitshuffle_core.c:70-77 | the three mask-and-shift steps on a 64-bit word transpose its 8x8 bits |
| `BitshuffleScalar.TransBitByteScal` | bitshuffle/bitshuffle_core.c:153-186 | bit k of input byte 8q+c becomes bit c of byte q of row k |
| `BitshuffleScalar.TransByteElemScal` | bitshuffle/bitshuffle_core.c:114-150 | the unrolled loop and its remainder transpose bytes for every size |
| `BitshuffleScalar.ShuffleBitEightelemScal` | bitshuffle/bitshuffle_core.c:270-299 | within blocks of eight elements, bits go back from rows to elements |
| `BitshuffleScalar.TransBitElemScal` | bitshuffle/bitshuffle_core.c:218-240 | the three scalar passes compute the full shuffle; a size that is not a multiple of eight is refused |
| `BitshuffleScalar.UntransBitElemScal` | bitshuffle/bitshuffle_core.c:302-320 | the two scalar passes compute the unshuffle |
| `BitshuffleSimd.ShiftedTops` | bitshuffle/bitshuffle_core.c:544-573 | after k shifts of a 16-bit lane, which leak bits of its low byte into its high one, the top bit of each byte is bit 7-k of that byte alone |
| `BitshuffleSimd.TransBitByteSimd` | bitshuffle/bitshuffle_core.c:544-573 | the movemask loop over registers of 16 or 32 bytes, with its remainder, is the same bit transpose as the scalar one |
| `BitshuffleSimd.ShuffleBitEightelemSimd` | bitshuffle/bitshuffle_core.c:707-740 | the register form of the eight-element pass has the contract of the scalar one |
| `BitshuffleUnpack.NetworkTransposes` | bitshuffle/bitshuffle_core.c:335-452 | the interleaving networks for elements of 2, 4 and 8 bytes transpose bytes |
| `BitshuffleUnpack.RowNetworkTransposes` | bitshuffle/bitshuffle_core.c:601-700 | the network on eight rows gathers their bytes in columns |
| `BitshufflePasses.TransByteElemUnpack` | bitshuffle/bitshuffle_core.c:335-452 | unpack network plus remainder loop transpose bytes for every size |
| `BitshufflePasses.TransByteHierarchical` | bitshuffle/bitshuffle_core.c:482-540 | for element sizes divisible by 4 or 8, the word transpose followed by the small byte transpose is the byte transpose |
| `BitshufflePasses.TransByteElemSse` | bitshuffle/bitshuffle_core.c:482-540 | the dispatch over element sizes transposes bytes for every element size |
| `BitshufflePasses.TransByteBitrowSse` | bitshuffle/bitshuffle_core.c:601-703 | the 128-bit form gathers the bytes of the bit rows |
| `BitshufflePasses.TransByteBitrowAvx` | bitshuffle/bitshuffle_core.c:889-980 | the 256-bit form gathers the bytes of the bit rows as the 128-bit form does |
| `BitshufflePasses.TransBitElemSimd` | bitshuffle/bitshuffle_core.c:577-597 | the vectorized shuffle, SSE or AVX, computes the same function as the scalar one |
| `BitshufflePasses.UntransBitElemSimd` | bitshuffle/bitshuffle_core.c:744-762 | the vectorized unshuffle computes the same function as the scalar one |
| `IoChain.ReadsAreSerial` | bitshuffle/iochain.c:42-89 | whatever the schedule, iteration i reads exactly the input and output positions of the serial loop |
| `IoChain.HandedOnIsKept` | bitshuffle/iochain.c:42-89 | no slot among the 33 is overwritten between being published and being read |
| `IoChain.LowestCanStep` | bitshuffle/iochain.c:42-89 | the lowest unfinished iteration can always take its next step |
| `IoChain.StuckMeansSerial` | bitshuffle/iochain.c:42-89 | a run in which no iteration can step has finished, memory holds the serial output, and nothing else has been written |
| `IoChain.EveryRunCanFinish` | bitshuffle/iochain.c:42-89 | every schedule can be extended to a finished run by at most 15 steps per iteration |
| `IoChain.RunsAreShort` | bitshuffle/iochain.c:42-89 | no run takes more than 15 steps per iteration |
| `Lz4Framing.ChosenBlockSize` | bitshuffle/bitshuffle_core.c:1271-1279 | the default block is as many elements as fit in 8192 bytes, rounded down to a multiple of eight, and 128 for elements of more than 64 bytes |
| `Lz4Framing.HeaderRoundTrip` | bitshuffle/bitshuffle_core.c:1241-1262 | a 32-bit big-endian number reads back, modulo 2^32, and as a signed number below 2^31 |
| `Lz4Framing.FrameLayout` | bitshuffle/bitshuffle.c:59-71 | a frame is the compressed size in four bytes, the most significant first, and what the codec makes of the shuffled block |
| `Lz4Framing.BlocksCover` | bitshuffle/bitshuffle_core.c:1136-1152 | full blocks and the partial one together cover all elements but the last size mod 8 |
| `Lz4Framing.FramesWithinBound` | bitshuffle/bitshuffle.c:131-150 | the bound added up over the blocks is the published bound |
| `Lz4Framing.BoundIsTight` | bitshuffle/bitshuffle.c:131-150 | and the bound is tight: with a codec that needs its own bound for every block the stream is exactly as long |
| `Lz4Framing.StreamRoundTrip` | bitshuffle/bitshuffle.c:131-163 | for every size, element size and block size: decompression returns the input, consumes exactly what compression produced, and that is never more than the bound |
| `Lz4Parallel.ParallelCompress` | bitshuffle/bitshuffle_core.c:1132-1164 | a finished parallel run of compression jobs has written the compressed stream, but for its tail, and nothing else |
| `Lz4Parallel.ParallelDecompress` | bitshuffle/bitshuffle.c:78-122 | for every stream that decompresses, whoever wrote it: a finished parallel run of decompression jobs, which find each other's input through the headers, has written the data, but for the tail, and nothing else |
| `Lz4Parallel.ParallelRoundTrip` | bitshuffle/bitshuffle.c:32-122 | in particular for what compression has written it is the original data |
| `Lz4Chain.CompressLz4` | bitshuffle/bitshuffle_core.c:1110-1164 | the blocked loop on arrays writes exactly the specified stream, returns its length, and stays within a buffer of the published size |
| `Lz4Chain.DecompressLz4` | bitshuffle/bitshuffle_core.c:1110-1164 | on a stream that decompresses, the loop writes the data and returns the number of bytes it has read |
| `EncodeBound.DownsampledBlockBound` | assembled_chunk.cpp:719-864 | at most one in 25 of the valid samples of a re-encoded block becomes a sentinel, for every block |
| `EncodeBound.PacketBlockBound` | intensity_packet.cpp:97-153 | at most one in 25 of the valid samples of a block of a packet becomes a sentinel, provided some valid sample is not zero |
| `EncodeBound.PacketScaleIsPositiveIff` | intensity_packet.cpp:125-136 | the scale of a block is positive if and only if some valid sample is not zero |
| `EncodeBound.BlockIsFitted` | assembled_chunk.cpp:806-819 | of a downsampled block, 25 scales squared are the mean squared deviation plus a ten-billionth of the squared mean, and the offset is the mean less 128 scales; the scale is 0.04 where that is zero or nothing counts |
| `EncodeBound.PacketIsFitted` | intensity_packet.cpp:122-136 | of a block of a packet, 25 scales squared are the mean squared deviation, or a hundred-thousandth of the squared mean if that is more, and the offset is the mean less 128 scales |
| `EncodeBound.SurvivorIsClose` | assembled_chunk.cpp:834-864 | a byte that is not a sentinel decodes to within half a step of its sample |
| `DownsampleKernels.PairIsMean` | assembled_chunk.cpp:740-765 | the value of a pair is the mean of what its two bytes decode to, and it is masked if and only if one of them is 0 or 255 |
| `DownsampleKernels.PixelIsPair` | assembled_chunk.cpp:740-765 | which two bytes, and the scale and offset of which input packet, make an output sample |
| `DownsampleKernels.BlockHasAll` | assembled_chunk.cpp:719-779 | a block consists of the samples of its output packet in all rows |
| `DownsampleKernels.Kernel1` | assembled_chunk.cpp:719-779 | pairs of samples are averaged and masked as specified, and counts and means are those of the block |
| `DownsampleKernels.Kernel2` | assembled_chunk.cpp:782-831 | offset and scale of each block fit its mean and its deviation, and the inverse scale is the inverse |
| `DownsampleKernels.Kernel3` | assembled_chunk.cpp:834-864 | every output byte is the specified encoding of its pair of inputs |
| `DownsampleKernels.Downsample` | assembled_chunk.cpp:432-439 | the three loops together re-encode one coarse frequency of a chunk, and every block of it meets the bound on sentinels, keeps masked pixels masked and moves others by at most half a scale |
| `PacketEncode.EncodeBlock` | intensity_packet.cpp:97-152 | all-masked blocks, scale, offset and every byte are as specified; the division is by zero if and only if there are valid samples and all of them are zero |
| `PacketEncode.BlockThatDividesByZero` | intensity_packet.cpp:125-146 | a block of one weighted zero divides by zero |
| `PacketEncode.PacketSamplesAreGood` | intensity_packet.cpp:97-152 | in every block that does not divide by zero at most one valid sample in 25 is lost, masked samples stay masked, and the rest decode to within half a scale |
| `RfiMask.HalveSlow` | assembled_chunk.cpp:445-461 | each output bit is the AND of its two input bits |
| `RfiMask.HalveFast` | avx2_kernels.cpp:841-895 | the bit-parallel kernel computes the same bytes for every mask whose length is a multiple of 512 bits |
| `RfiMask.HalvesTheBits` | assembled_chunk.cpp:445-461 | on rows of bits this is the pairwise AND that the ring buffer's merge uses |
| `FastLanes.IncrementalDownsample8.Add` | avx2_kernels.cpp:171-200 | the incremental reduction of eight registers keeps its partial sums in the right lanes |
| `FastLanes.Broadcasts` | avx2_kernels.cpp:206-241 | the n-th register handed out holds the n-th value in all lanes |
| `FastKernels.FastKernel1` | avx2_kernels.cpp:497-641 | the vectorized first kernel has the contract of the reference loop |
| `FastKernels.FastKernel2` | avx2_kernels.cpp:645-753 | the vectorized second kernel has the contract of the reference loop |
| `FastEncode.ExtractsInOrder` | avx2_kernels.cpp:301-371 | the extraction network packs 32 values in order |
| `FastEncode.DifferAtTies` | avx2_kernels.cpp:757-790 | rounding halves to even instead of up differs exactly at ties above an even byte, and there by one |
| `FastEncode.TieHappens` | avx2_kernels.cpp:757-790 | a block of sixteen samples with mean 0 and deviation 2, in which the sample 1 lies at 140.5 and is encoded as 141 by the reference and as 140 by the fast kernel |
| `FastEncode.FastBlockBound` | avx2_kernels.cpp:757-833 | the fast encoding meets the bounds on sentinels and on decoding errors of the reference encoding |
| `FastEncode.FastKernel3` | avx2_kernels.cpp:757-833 | the vectorized third kernel gives every sample the fast encoding, rounding halves to even |
| `FastEncode.FastIsReferenceButTies` | avx2_kernels.cpp:757-833 | a byte is the fast encoding of a pixel if and only if it is the reference encoding, or one less at such a tie |
| `FastEncode.FastDownsample` | avx2_kernels.cpp:970-1031 | the whole fast downsampling gives the reference's scales and offsets, and its bytes but for ties |
| `FastDecode.DecodeRow` | assembled_chunk.cpp:373-393 | one row decodes to scale times byte plus offset, with weight zero exactly for sentinels |
| `FastDecode.IntensityIs` | assembled_chunk.cpp:380-390 | sample k of packet c decodes to the prescale times the sum of its byte times the scale of the packet and the offset of the packet |
| `FastDecode.DecodeSubset` | assembled_chunk.cpp:407-428 | a window of a row decodes to the specified samples |
| `FastDecode.WindowOfDecoding` | assembled_chunk.cpp:396-429 | the samples of a decoded subset are the window of a full decoding without prescaling |
| `FastDecode.SpreadAt` | avx2_kernels.cpp:423-477 | the shuffles of the decoder put each of 32 bytes in the right lane |
| `FastDecode.FastDecodeRow` | avx2_kernels.cpp:423-477 | the vectorized decoder has the contract of the reference loop |
| `PacketFormat.PacketRoundTrip` | intensity_packet.cpp:51-69 | every field of a serialized packet is read back |
| `PacketFormat.PacketReadBack` | intensity_packet.cpp:51-69 | every buffer of consistent size is the serialization of what is read from it |
| `PacketFormat.HeaderLayout` | intensity_packet.cpp:37 | each header field is made of its own bytes of the first 24, the least significant first |
| `PacketFormat.ArrayLayout` | intensity_packet.cpp:62-68 | identifiers, scales, offsets and data follow in this order, each item at its own place |
| `PacketFormat.PowerTest` | intensity_packet.cpp:41-42 | the bit trick passes zero and the powers of two, nothing else |
| `PacketFormat.Decode` | intensity_packet.cpp:30-76 | a packet is accepted exactly if it passes all checks, and divides by zero exactly if the checks before the division pass and its number of samples is zero |
| `PacketFormat.AcceptsExactlySerializations` | intensity_packet.cpp:30-76 | the accepted buffers are exactly the serializations of packets that meet the sender's rules |
| `PacketFormat.SendableIsAccepted` | intensity_packet.cpp:30-76 | whatever a sender may send is accepted and read back |
| `PacketFormat.EmptyPacketIsAccepted` | intensity_packet.cpp:25-28 | a packet without beams, frequencies or data is accepted, although the comment promises positive numbers |
| `PacketFormat.HeaderThatDividesByZero` | intensity_packet.cpp:41-49 | 24 bytes that reach the division with a number of samples of zero |
| `ChunkEncode.PointerPosition` | intensity_network_ostream.cpp:276-292 | the offsets and strides of the encoder reach the element with the given beam, frequency, fine frequency and time |
| `ChunkEncode.BlockValueIsRead` | intensity_packet.cpp:97-107 | a value of a block is the one at the sum of the pointers of packet, beam, frequency, fine frequency and time |
| `ChunkEncode.BlockValueIs` | intensity_network_ostream.cpp:276-292 | which is the element with that beam, frequency, fine frequency and time of the sender's array |
| `ChunkEncode.EncodePacket` | intensity_packet.cpp:82-156 | every block of the packet is encoded in its place with its scale and offset |
| `ChunkEncode.PacketIsSendable` | intensity_network_ostream.cpp:56-170 | the constructor's checks make every packet acceptable to receivers |
| `ChunkEncode.EncodeChunk` | intensity_network_ostream.cpp:250-301 | a misaligned FPGA count is refused; otherwise packet number it*nf+io is that of window it and frequency group io |
| `ChunkEncode.EverySampleIsSentOnce` | intensity_network_ostream.cpp:270-300 | every sample of a chunk is in exactly one of its packets |
| `ChunkEncode.WireDelivers` | intensity_network_stream.cpp:1106-1151 | a packet that was serialized and split in place shows the receiver exactly each beam's part |
| `BeamSplit.BeamViewReads` | intensity_network_stream.cpp:1106-1151 | advancing the pointers by ib beams shows exactly the part of beam ib |
| `BeamSplit.SplitByBeam` | intensity_network_stream.cpp:1106-1151 | the loop hands each beam's part to the first assembler with its identifier, or reports that there is none |
| `ChunkAssembly.AssembledChunk.AddPacket` | assembled_chunk.cpp:321-358 | a packet that fails the checks changes nothing; any other overwrites exactly its cells of data, scales and offsets |
| `ChunkAssembly.AssembledChunk.FastAddPacket` | avx2_kernels.cpp:922-940 | the vectorized copy leaves the same three arrays |
| `ChunkAssembly.LastWins` | assembled_chunk.cpp:345-356 | a cell holds what the last packet that covers it has written |
| `ChunkAssembly.OrderDoesNotMatter` | assembled_chunk.cpp:345-356 | packets that agree where they overlap may come in any order and any number of times |
| `ChunkDelivery.LandsInItsChunk` | assembled_chunk_ringbuf.cpp:273-274 | every window of a sender's chunk is in exactly one chunk of the receiver, that of its first sample, even if the sender's chunk straddles several |
| `ChunkDelivery.PartBelongs` | assembled_chunk.cpp:333-343 | a beam's part is taken by a chunk if and only if its window lies in it |
| `ChunkDelivery.PartsAgree` | assembled_chunk.cpp:345-356 | no two packets of a sender's chunk write different values to the same place |
| `ChunkDelivery.EndToEnd` | intensity_network_ostream.cpp:250-301 | in whatever order and however often parts arrive: each sample of each packet that reached a chunk is in the row of its frequency, as it was encoded, with the scale and the offset of its block |
| `ChunkDelivery.UncoveredStays` | assembled_chunk.cpp:345-356 | data, scales and offsets that no packet covers stay as they were |
| `ChunkDelivery.DecodedIsClose` | assembled_chunk.cpp:364-394 | for every beam, frequency, fine frequency and time: the sample counts if the element of the weights reaches the cutoff; what the receiver decodes is within half a scale of the element of the intensities, or has weight zero, and has it below the cutoff; 25 scales are the deviation of the block |
| `ChunkDelivery.RowIsProduct` | assembled_chunk.cpp:373-393 | where the row of a fine frequency, and its scales and offsets, are in the chunk |
| `ChunkDelivery.FewAreLost` | intensity_packet.cpp:97-152 | of the samples of a block that count for the sender, the receiver decodes at most one in 25 with weight zero |
| `QueuedCells.QueuedChunkIsLastHits` | assembled_chunk_ringbuf.cpp:320-327 | a queued or delivered chunk is made of exactly the parts that hit it, all of which belong to it, and each of its cells is that of the last of them that covers it, or zero |
| `UdpPackets.UdpPacketList.AddPacket` | udp_packet_list.cpp:34-46 | a packet of acceptable size is appended to a list that is not full; anything else is refused |
| `UdpPackets.UdpPacketList.Receive` | intensity_network_stream.cpp:850-857 | bytes received behind the end leave the packets as they are |
| `UdpPackets.UdpPacketList.RoomBehind` | udp_packet_list.cpp:25-30 | behind a list that is not full there is room for 9001 bytes |
| `UdpPackets.UdpPacketRingbuf.PutPacketList` | udp_packet_ringbuf.cpp:46-78 | a list goes to the end of the queue and a spare one comes back, or it is dropped; no list is lost or shared |
| `UdpPackets.UdpPacketRingbuf.GetPacketList` | udp_packet_ringbuf.cpp:81-108 | the oldest list comes off the queue; the end is reported only when the queue is empty |
| `UdpPackets.UdpPacketRingbuf.EndStream` | udp_packet_ringbuf.cpp:111-118 | ending the stream keeps the queue |
| `ListSwapping.BuffersFollow` | udp_packet_ringbuf.cpp:46-108 | in every run the buffers that producer, ring and consumer exchange are never shared and never lost, and hold exactly the lists of the pipeline |
| `BeamAssembly.GoodIsOfStream` | intensity_network_stream.cpp:1063-1086 | what passes decoding and the comparison of parameters is the serialization of a packet of the stream |
| `BeamAssembly.OfStreamIsGood` | intensity_network_stream.cpp:1063-1102 | every serialized packet of the stream passes decoding and the comparison of parameters |
| `BeamAssembly.MatchIsDelivered` | intensity_network_stream.cpp:1121-1142 | the assembler the loop finds is the first with the packet's beam identifier |
| `BeamAssembly.ArriveOutcome` | assembled_chunk_ringbuf.cpp:296-333 | an arriving part is logged and counted once, or begins a push, or the call throws |
| `BeamAssembly.CommitOutcome` | assembled_chunk_ringbuf.cpp:311-333 | once the push is committed the part is logged and counted once |
| `BeamAssembly.PartBelongsToChunk` | assembled_chunk.cpp:333-343 | a part passes the checks of a chunk if and only if its time stamp falls in that chunk |
| `UdpPipeline.StepKeeps` | intensity_network_stream.cpp:813-1156 | every step of the network thread, the assembler thread and the readers of the ring buffers keeps the books, the order and what is known of each beam |
| `UdpPipeline.Accounts` | intensity_network_stream.cpp:884-902 | at every moment received equals end-of-stream plus rejected plus dropped plus bad plus mismatched plus good plus in flight; at packet boundaries good packets times beams equals hits plus misses plus unmatched beams; lists come out in the order they went in |
| `UdpPipeline.EverythingDrains` | intensity_network_stream.cpp:1158-1183 | after a regular end every accepted packet has been judged and the cumulative counts balance by themselves |
| `PacketVerdicts.VerdictsAreCounted` | intensity_network_stream.cpp:1058-1102 | in every run the bad packets are the judged ones that do not decode, the mismatched those that decode with other parameters, and the good ones the rest |
| `PacketVerdicts.HitsAreCounted` | assembled_chunk_ringbuf.cpp:320-332 | hits and misses are the sums of those of the ring buffers |
| `PacketVerdicts.ReceiptsAreCounted` | intensity_network_stream.cpp:860-895 | received packets are the datagrams that came, and ends of the stream those of 24 bytes |
| `PacketVerdicts.NetworkActs` | intensity_network_stream.cpp:813-902 | the network thread stops exactly for a cancellation, a packet of an impossible size, and an end of the stream if those are accepted; it flushes its list when it stops, after a time-out, and when the list is full |
| `UdpPipeline.AssemblerCanGoOn` | intensity_network_stream.cpp:1036-1156 | the assembler thread can always go on, unless it waits for the network thread |
| `UdpPipeline.ReceiveFits` | intensity_network_stream.cpp:856-857 | a receive always fits behind the list if packets are configured to at most 9000 bytes |
| `UdpPipeline.ReceiveFitsIff` | intensity_network_stream.cpp:856-857 | for every configuration: all receives of all runs fit if and only if the largest fits behind the fullest list that is not full, which holds the smaller of one byte less than the limit in bytes and 9000 times one packet less than the limit in packets (but never 24 bytes in a single packet) |
| `UdpPipeline.ReceiveFitsIffSmall` | intensity_network_stream.cpp:856-857 | where the limit in packets leaves room for all bytes, as with the defaults, that is so if and only if packets are configured to at most 9000 bytes |
| `RegularEnds.FinishedMeansAllEnded` | intensity_network_stream.cpp:1172-1183 | when the assembler thread has finished, the stream of every beam has ended |
| `RegularEnds.EndBeamIff` | intensity_network_stream.cpp:1177-1180 | ending the next beam succeeds if and only if both chunks of its window can be pushed; otherwise the thread dies |
| `RegularEnds.RegularEndIff` | intensity_network_stream.cpp:1172-1183 | once the end has begun and all its calls are made, in any interleaving: the thread has finished if every beam could be ended when the end began, and only if no mask has been filled meanwhile that made it possible |
| `RegularEnds.QuietBeamNeverFinishes` | intensity_network_stream.cpp:1177-1180 | if some beam has had no packet when the end begins, the thread never finishes, whatever happens |
| `RegularEnds.ShallowEndIff` | intensity_network_stream.cpp:1172-1183 | without masks and with at most four levels the end is regular if and only if every beam has had a packet |
| `RegularEnds.ShallowCrashesIff` | intensity_network_stream.cpp:1017-1183 | without masks and with at most four levels a step kills the assembler thread if and only if it judges a packet that divides by zero or ends a beam without packets |
| `RegularEnds.CancelledBeforePackets` | intensity_network_stream.cpp:1177-1180 | in every configuration the run that cancels the stream before the first packet dies at the first beam |
| `OutputDevices.OutputDevice.EnqueueWriteRequest` | output_device.cpp:118-170 | a request is refused, queued or made to wait for its mask as the program decides, and is then accounted for |
| `OutputDevices.OutputDevice.CollectMasks` | output_device.cpp:195-206 | requests whose mask has come move to the queue, the others keep their order |
| `OutputDevices.OutputDevice.TryPop` | output_device.cpp:190-230 | a pop returns a maximal request (priority, then earliest) of those queued or newly ready; the end is reported exactly when the stream has ended and nothing is pending |
| `OutputDevices.OutputDevice.EndStream` | output_device.cpp:233-252 | without waiting everything pending is cancelled; with waiting the caller may return exactly when nothing is pending |
| `OutputDevices.NoRequestSleeps` | output_device.cpp:190-287 | in every run: a sleeping I/O thread has nothing to pop but requests whose mask has been set and not yet reported, a sleeping caller has something to wait for, and a thread that is being joined does not sleep for nothing |
| `OutputDevices.LeftAsleepExactlyWhen` | output_device.cpp:249-251 | an idle thread is left asleep exactly by an `end_stream(true)` that finds it asleep with nothing pending |
| `OutputDevices.OnlyTheseWake` | output_device.cpp:172-287 | a thread left asleep sleeps on until a mask is reported, the stream is ended without waiting, or the thread is joined |
| `OutputDevices.SleepsOn` | output_device.cpp:172-287 | however long the run goes on, a thread left asleep sleeps until a mask is reported, the stream is ended without waiting, or the thread is joined |
| `OutputDevices.OnlyWaitingEndsLeaveAsleep` | output_device.cpp:233-252 | in no run without `end_stream(true)` is a thread left asleep |
| `OutputDevices.IdleDeviceStaysAsleep` | output_device.cpp:249-251 | the run that starts, finds nothing and is ended with waiting leaves the thread asleep |
| `OutputDevices.EndThenJoin` | output_device.cpp:255-287 | ending either way and joining makes an idle device's thread leave at its next pop |
| `OutputDevices.EndedDeviceDrains` | output_device.cpp:190-230 | an ended device whose masks have come has left after one pop more than it has requests |
| `OutputDevices.ExitsOnlyWhenDone` | output_device.cpp:209-210 | the thread leaves only when the stream has ended and nothing is pending |
| `OutputDevices.CallerLeavesOnlyWhenDone` | output_device.cpp:249-251 | `end_stream(true)` returns only when nothing is pending |
| `OutputDevices.EndReturnsBeforeTheLastWrite` | output_device.cpp:249-251 | `end_stream(true)` can return while the I/O thread is still writing the last request |
| `OutputDevices.WritesAwake` | output_device.cpp:255-287 | a thread that sleeps or has left has written all that it has popped, so after a join nothing is being written |
| `StreamWriters.AbsorbConserves` | ch_frb_io/stream.py:132-172 | a chunk is stored behind what there was if no turn overwrites a file with samples, and samples are lost for good if one does |
| `StreamWriters.FlushConserves` | ch_frb_io/stream.py:174-182 | a flush keeps everything if and only if it does not open a file under the name of one that has samples |
| `StreamWriters.FinalFlushCanDiscard` | ch_frb_io/stream.py:184-206 | the final flush of an empty buffer can discard the file that has just been completed |
| `StreamWriters.StreamWriter.AbsorbChunk` | ch_frb_io/stream.py:132-172 | the loop ends and leaves what the specification says |
| `StreamWriters.StreamWriter.FlushBuffers` | ch_frb_io/stream.py:174-182 | a flush writes the used part of the buffer |
| `StreamRuns.RunConserves` | ch_frb_io/stream.py:132-265 | over every run of chunks and flushes the files followed by the buffer are what was absorbed if and only if no operation overwrites a file with samples |
| `StreamRuns.SpacedRunKeepsAll` | ch_frb_io/stream.py:132-265 | if rounded times a file apart differ and no idle writer is flushed, nothing is lost and every file is named after its first sample |
| `StreamRuns.ChunksKeepAllIff` | ch_frb_io/stream.py:132-265 | without flushes nothing is lost if and only if the rounded times at the beginnings of the files differ; and every file but the open one holds exactly the configured number of samples |
| `StreamRuns.EqualTimesAreLost` | ch_frb_io/stream.py:197-206 | for every block and file size: a chunk for more than one file, whose second file begins at a time that rounds like that of the first, is not stored completely |
| `StreamClosing.RunSlot` | ch_frb_io/stream.py:227-236 | which sample is in the first slot of the buffer after any chunks: the first of the last block that was begun by less than a block, or what was there at the beginning |
| `StreamClosing.FinishedKeepsAllIff` | ch_frb_io/stream.py:132-206 | chunks and the flush that closes the writer: the files hold all of it, in order, if and only if the rounded times at the beginnings of all files differ (also of one that this flush begins), and, when the data fill the files exactly, the rounded time in the first slot of the buffer is that of no file |
| `StreamReaders.StreamReader.CacheH5Chunk` | ch_frb_io/stream.py:382-406 | the cache holds a piece of the concatenated files that contains the current sample |
| `StreamReaders.StreamReader.YieldChunk` | ch_frb_io/stream.py:341-380 | successive calls return consecutive pieces of the concatenated files, across file boundaries; a request for none or too many stops |
| `IntensityFiles.InitTimes` | intensity_hdf5_file.cpp:77-126 | times are accepted exactly if there are at least two, they increase, all gaps are whole multiples of the smallest one to within a hundredth of it, no gap is longer than a million and all of them together no longer than a hundred million steps; then the map follows the gaps, and the "impossible step" error cannot happen |
| `IntensityFiles.CommonStepIsNotEnough` | intensity_hdf5_file.cpp:84-114 | gaps of 2 and 3, which are multiples of a common step 1, are rejected |
| `IntensityFiles.OneMap` | intensity_hdf5_file.cpp:103-120 | there is only one such map |
| `IntensityFiles.MapIncreases` | intensity_hdf5_file.cpp:103-120 | it is strictly increasing |
| `IntensityFiles.DriftIsBounded` | intensity_hdf5_file.cpp:112-117 | the logical time of sample i is off by at most 0.01 dt times i |
| `IntensityFiles.StepIsPossible` | intensity_hdf5_file.cpp:105-110 | a gap that passes the size check has a step number in range |
| `IntensityFiles.ZeroWeights` | intensity_hdf5_file.cpp:173-237 | the weight at a logical time is zero exactly at gaps and where all weights are zero |
| `IntensityFiles.CellIsMean` | intensity_hdf5_file.cpp:201-237 | at the logical time of a file sample the weight is the sum over the polarizations, which lie one after the other for each frequency, and the intensity their mean by weight |
| `IntensityFiles.OnePolarization` | intensity_hdf5_file.cpp:201-237 | with a single polarization it is the intensity in the file, where that has a weight |
| `IntensityFiles.GapIsEmpty` | intensity_hdf5_file.cpp:191-194 | between file samples both are zero |
| `IntensityFiles.RowStartIsProduct` | intensity_hdf5_file.cpp:191-194 | row f of the output begins f strides after the first, for strides of either sign |
| `IntensityFiles.GetUnpolarizedIntensity` | intensity_hdf5_file.cpp:173-237 | every cell of the window, for any stride at least the window's length in absolute value, holds the weighted polarization mean and weight of its logical time, and nothing else is written |

## Left out

- Lz4Chain.DecompressLz4: speaks of streams that decompress; which error code a failing block returns, and reads behind the end of a malformed stream, are not modelled.
- Lz4Parallel.ParallelDecompress: speaks of streams that decompress, so no block fails; a failing block leaves the chain without its calls, and what the other threads then do is not modelled.
- IoChain.StuckMeansSerial: every iteration makes all four calls of the protocol, and memory is sequentially consistent; OpenMP scheduling is any interleaving.
- LZ4 itself: a pair of functions that round-trips and respects its bound.
- Floating point: intensities, weights, scales and offsets are reals and the square root is exact; rounding to single precision is an arbitrary function where the kernels convert; on the wire a float is four bytes that are not interpreted.
- What the assembler thread does between an exception and the end of the process, when it ends the streams once more.
- What the program does after a division by zero: the model only says when it happens.
- FPGA counts and ring positions are unbounded numbers; wrap-around at 64 bits is not modelled.
- Failing allocations, exceptions thrown by `malloc` wrappers, and the memory pools and slabs.
- The flags that turn an event into an exception (`throw_exception_on_beam_id_mismatch` and `throw_exception_on_packet_mismatch`, which are set by default, `throw_exception_on_buffer_drop`, `throw_exception_on_assembler_miss`): the model has them clear, so events are counted.
- `inject_assembled_chunk`, `get_ringbuf_snapshot`, `stream_to_files`, `print_state` and `randomize`: injection bypasses the window on purpose, the rest reads or reports.
- `packets_received` of a chunk, which the fast form does not maintain.
- The two halves of the destination chunk in `downsample` and the loops over coarse frequencies in `decode` and `downsample`: the model has one row and one block at a time.
- The two checks that `_encode_chunk` makes of the packet list it is given: empty, and large enough.
- Sockets, host names, throttling, fetching of `frame0`, packet-rate histories, per-host counts, thread pinning and logging.
- Time-outs and spurious wake-ups are steps that may happen at any time; the wall clock is not modelled.
- The wait of a blocking `put_packet_list`: the network thread uses the form that drops.
- Writing of files, hard links and temporary names in the I/O threads; HDF5 and msgpack formats; names of files as text and the glob that finds them.
- `yield_chunk` without an argument, which reads an attribute that is never set.
- Frequencies and polarizations of HDF5 files as they are read, and the writer in `intensity_hdf5_ofile.cpp`.
