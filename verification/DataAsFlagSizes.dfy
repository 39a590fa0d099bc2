/**
 Sizes of the data-as-flag transfer: block counts, scratch requirements and the
 searches for the largest batch that a scratch buffer can hold, on unsigned 32-
 and 64-bit arithmetic with the conversions the source makes.
 */
module DataAsFlagSizes {

  const BLOCK_BYTES := 512
  const PAYLOAD_BYTES := 480
  const FLAG_BYTES := 32
  const ALIGN_BYTES := 32
  const FLOAT_BYTES := 4
  const FLAG_FLOATS := 8
  const SUM_RESULT_BYTES := 32
  const WORD32 := 0x1_0000_0000
  const WORD64 := 0x1_0000_0000_0000_0000

  type u32 = x: int | 0 <= x < 0x1_0000_0000
  type u64 = x: int | 0 <= x < 0x1_0000_0000_0000_0000

  function U32(x: int): u32
  {
    x % WORD32
  }

  function U64(x: int): u64
  {
    x % WORD64
  }

  // Block counts

  /** Blocks needed for `n` bytes. */
  function BlocksFor(n: nat): (b: nat)
    ensures n <= b * PAYLOAD_BYTES < n + PAYLOAD_BYTES
  {
    (n + PAYLOAD_BYTES - 1) / PAYLOAD_BYTES
  }

  function BlockCount(dataBytes: u64): u32
  {
    if dataBytes == 0 then 0 else U32(U64(dataBytes + PAYLOAD_BYTES - 1) / PAYLOAD_BYTES)
  }

  /** The 32-bit block count is right exactly up to 480 * (2^32 - 1) bytes. */
  lemma {:induction false} BlockCountExact(dataBytes: u64)
    ensures BlockCount(dataBytes) == BlocksFor(dataBytes) <==> dataBytes <= PAYLOAD_BYTES * (WORD32 - 1)
  {
  }

  // Scratch requirements

  function AlignUp(value: u64, alignment: u64): u64
  {
    if alignment == 0 then value
    else
      var remainder := value % alignment;
      if remainder == 0 then value else U64(value + alignment - remainder)
  }

  function AlignedFloatCount(valueCount: u32): u32
  {
    U32(AlignUp(U64(valueCount * FLOAT_BYTES), ALIGN_BYTES) / FLOAT_BYTES)
  }

  function SumWorkspaceBytes(valueCount: u32): u32
  {
    if valueCount == 0 then 0
    else U32(AlignUp(U64(AlignedFloatCount(valueCount) * FLOAT_BYTES), ALIGN_BYTES))
  }

  function FlagBytes(blocks: u32): u32
  {
    U32(blocks * FLAG_BYTES)
  }

  function SumBytes(blocks: u32): u32
  {
    U32(SUM_RESULT_BYTES + SumWorkspaceBytes(U32(blocks * FLAG_FLOATS)))
  }

  /** Up to 2^27 - 1 blocks nothing wraps inside the sum workspace: eight floats per block. */
  lemma {:induction false} SumBytesIs(blocks: u32)
    requires blocks < 0x800_0000
    ensures FlagBytes(blocks) == 32 * blocks
    ensures SumWorkspaceBytes(U32(blocks * FLAG_FLOATS)) == 32 * blocks
    ensures SumBytes(blocks) == U32(32 + 32 * blocks)
  {
    var values := U32(blocks * FLAG_FLOATS);
    assert values == 8 * blocks;
    assert U64(values * FLOAT_BYTES) == 32 * blocks;
    assert AlignUp(32 * blocks, ALIGN_BYTES) == 32 * blocks;
    assert AlignedFloatCount(values) == 8 * blocks;
    assert SumWorkspaceBytes(values) == 32 * blocks;
  }

  /** Bytes that checking `blocks` flags needs, without any wrap. */
  function CheckNeed(blocks: nat): nat
  {
    64 * blocks + 32
  }

  /** Bytes that checking and copying `blocks` blocks needs. */
  function RecvNeed(blocks: nat): nat
  {
    CheckNeed(blocks) + PAYLOAD_BYTES * blocks
  }

  /** Flags that one check can look at with this scratch size. */
  function CheckCapacity(scratchBytes: u32): u32
  {
    if scratchBytes < 32 then 0
    else if scratchBytes < 0x8000_0000 then (scratchBytes - 32) / 64
    else scratchBytes / FLAG_BYTES
  }

  /** Blocks that one receive batch can hold with this scratch size. */
  function RecvCapacity(scratchBytes: u32): u32
  {
    if scratchBytes < 32 then 0 else (scratchBytes - 32) / 544
  }

  /** `DataAsFlagSplitCheckScratch` finds room for a batch. */
  predicate SplitFits(scratchBytes: u32, batch: u32)
  {
    batch != 0 && scratchBytes >= U32(FlagBytes(batch) + SumBytes(batch))
  }

  /** The 32-bit size that is compared with the scratch size wraps from 2^26 blocks on. */
  lemma {:induction false} CheckRequired(blocks: u32)
    requires blocks < 0x800_0000
    ensures U32(FlagBytes(blocks) + SumBytes(blocks)) ==
      if blocks < 0x400_0000 then CheckNeed(blocks) else CheckNeed(blocks) - WORD32
  {
    SumBytesIs(blocks);
    WrappedNeed(blocks);
  }

  lemma {:induction false} WrappedNeed(b: int)
    requires 0 <= b < 0x800_0000
    ensures (32 * b + (32 + 32 * b) % WORD32) % WORD32 == if b < 0x400_0000 then 64 * b + 32 else 64 * b + 32 - WORD32
  {
    assert (32 + 32 * b) % WORD32 == if b == 0x7FF_FFFF then 0 else 32 + 32 * b;
  }

  /** A receive batch always finds room for its check. */
  lemma {:induction false} RecvSplitFits(scratchBytes: u32, batch: u32)
    requires 0 < batch <= RecvCapacity(scratchBytes)
    ensures SplitFits(scratchBytes, batch)
  {
    CheckRequired(batch);
  }

  /**
   The largest batch of flags to check. Below 2^31 bytes of scratch it is the
   largest that fits. From 2^31 on, the required size wraps and the first
   candidate is accepted although it needs more than there is.
   */
  method MaxCheckBlocks(scratchBytes: u32) returns (blocks: u32)
    ensures scratchBytes < 0x8000_0000 ==>
      (blocks > 0 ==> CheckNeed(blocks) <= scratchBytes) && CheckNeed(blocks + 1) > scratchBytes
    ensures scratchBytes >= 0x8000_0000 ==> blocks == scratchBytes / FLAG_BYTES && CheckNeed(blocks) > scratchBytes
    ensures blocks == CheckCapacity(scratchBytes)
  {
    blocks := scratchBytes / FLAG_BYTES;
    while blocks > 0
      invariant 0 <= blocks <= scratchBytes / FLAG_BYTES
      invariant scratchBytes < 0x8000_0000 ==> CheckNeed(blocks + 1) > scratchBytes
      invariant scratchBytes >= 0x8000_0000 ==> blocks == scratchBytes / FLAG_BYTES
    {
      CheckRequired(blocks);
      var required := U32(FlagBytes(blocks) + SumBytes(blocks));
      if scratchBytes >= required {
        return;
      }
      blocks := blocks - 1;
    }
  }

  /** The largest batch to check and receive: it always is the largest that fits. */
  method MaxRecvBlocks(scratchBytes: u32) returns (blocks: u32)
    ensures blocks > 0 ==> RecvNeed(blocks) <= scratchBytes
    ensures RecvNeed(blocks + 1) > scratchBytes
    ensures blocks == RecvCapacity(scratchBytes)
  {
    blocks := scratchBytes / PAYLOAD_BYTES;
    while blocks > 0
      invariant 0 <= blocks <= scratchBytes / PAYLOAD_BYTES
      invariant RecvNeed(blocks + 1) > scratchBytes
    {
      SumBytesIs(blocks);
      var required := FlagBytes(blocks) + SumBytes(blocks) + blocks * PAYLOAD_BYTES;
      if scratchBytes >= required {
        return;
      }
      blocks := blocks - 1;
    }
  }

  // Scratch regions

  datatype Region = Region(start: int, bytes: int)
  {
    function End(): int
    {
      start + bytes
    }
  }

  /** The regions used while a batch is received: flags, sum result, sum workspace, payload copy. */
  function Regions(batch: u32): seq<Region>
  {
    var flags, sums := FlagBytes(batch), SumBytes(batch);
    [Region(0, flags), Region(flags, SUM_RESULT_BYTES),
     Region(flags + SUM_RESULT_BYTES, SumWorkspaceBytes(U32(batch * FLAG_FLOATS))),
     Region(flags + sums, batch * PAYLOAD_BYTES)]
  }

  /**
   For every batch that the receiver uses, its four scratch regions are in bounds
   and pairwise disjoint, and the flag region holds one padded flag per block.
   */
  lemma {:induction false} RegionsDisjoint(scratchBytes: u32, capacity: u32, batch: u32, i: nat, j: nat)
    requires 0 < batch <= capacity && RecvNeed(capacity) <= scratchBytes && i < j < 4
    ensures |Regions(batch)| == 4 && Regions(batch)[0].bytes == batch * FLAG_BYTES
    ensures 0 <= Regions(batch)[i].start && Regions(batch)[j].End() <= scratchBytes
    ensures Regions(batch)[i].bytes > 0 && Regions(batch)[i].End() <= Regions(batch)[j].start
  {
    RegionsAre(batch);
  }

  lemma {:induction false} RegionsAre(batch: u32)
    requires batch < 0x7F_FFFF
    ensures Regions(batch) ==
      [Region(0, 32 * batch), Region(32 * batch, 32), Region(32 * batch + 32, 32 * batch),
       Region(64 * batch + 32, PAYLOAD_BYTES * batch)]
  {
    SumBytesIs(batch);
  }
}
