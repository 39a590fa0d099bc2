/**
 The blocks of a data-as-flag transfer and the sender. Data travels in blocks of
 480 payload bytes and a flag. The sender fills its scratch buffer with the payload
 of a batch of blocks and copies whole blocks out of it; the flags in the scratch
 buffer were set once, by `DataAsFlagInit`. A copy takes its number of whole blocks
 as a 16-bit field, and blocks that this cuts away keep the payload they had.
 */
module DataAsFlag {
  import opened DataAsFlagSizes

  const READY := 1
  const U16 := 0x1_0000

  type byte = x: int | 0 <= x < 0x100

  datatype Block = Block(payload: seq<byte>, flag: int)

  function Min(a: int, b: int): int
  {
    if a < b then a else b
  }

  /** The bytes of the source that block `k` carries. */
  function Chunk(source: seq<byte>, k: nat): (c: seq<byte>)
    ensures |c| <= PAYLOAD_BYTES
  {
    if k * PAYLOAD_BYTES <= |source|
    then source[k * PAYLOAD_BYTES..Min((k + 1) * PAYLOAD_BYTES, |source|)] else []
  }

  /** A whole block with its flag set. */
  predicate ReadyBlock(b: Block)
  {
    b.flag == READY && |b.payload| == PAYLOAD_BYTES
  }

  ghost predicate ReadyBlocks(blocks: seq<Block>)
  {
    forall k :: 0 <= k < |blocks| ==> ReadyBlock(blocks[k])
  }

  /** A visible block of a transfer: flag set, its bytes at the front of the payload, anything behind them. */
  ghost predicate Carries(b: Block, source: seq<byte>, k: nat)
  {
    ReadyBlock(b) && Chunk(source, k) <= b.payload
  }

  ghost predicate AllCarry(source: seq<byte>, blocks: seq<Block>)
  {
    forall k :: 0 <= k < |blocks| ==> Carries(blocks[k], source, k)
  }

  // The scratch buffer

  /** The bytes of the float 1.0, over and over. */
  function InitByte(i: nat): byte
  {
    if i % 4 == 2 then 0x80 else if i % 4 == 3 then 0x3F else 0
  }

  /** `DataAsFlagInit` fills the whole scratch buffer, flags and payload, with the ready value. */
  function InitScratch(blocks: nat): (scratch: seq<Block>)
    ensures |scratch| == blocks && ReadyBlocks(scratch)
    ensures forall j :: 0 <= j < blocks ==> scratch[j].payload[2] == 0x80
  {
    seq(blocks, j => Block(seq(PAYLOAD_BYTES, i requires 0 <= i < PAYLOAD_BYTES => InitByte(i)), READY))
  }

  /** Scratch block `j` once `full` whole blocks and `tail` bytes of payload from `from` on have been copied in. */
  function LoadedBlock(b: Block, source: seq<byte>, from: nat, full: nat, tail: nat, j: nat): Block
    requires from + full * PAYLOAD_BYTES + tail <= |source| && |b.payload| == PAYLOAD_BYTES && tail < PAYLOAD_BYTES
  {
    if j < full % U16 then
      b.(payload := source[from + j * PAYLOAD_BYTES..from + j * PAYLOAD_BYTES + PAYLOAD_BYTES])
    else if j == full && tail > 0 then
      b.(payload := source[from + full * PAYLOAD_BYTES..from + full * PAYLOAD_BYTES + tail] + b.payload[tail..])
    else b
  }

  function Loaded(scratch: seq<Block>, source: seq<byte>, from: nat, full: nat, tail: nat): (r: seq<Block>)
    requires from + full * PAYLOAD_BYTES + tail <= |source| && tail < PAYLOAD_BYTES && ReadyBlocks(scratch)
    ensures |r| == |scratch| && ReadyBlocks(r)
    ensures forall j :: 0 <= j < |r| ==> r[j] == LoadedBlock(scratch[j], source, from, full, tail, j)
  {
    seq(|scratch|, j requires 0 <= j < |scratch| => LoadedBlock(scratch[j], source, from, full, tail, j))
  }

  // Sending

  /** `total` blocks, each with at least one byte of the data. */
  predicate Covers(n: nat, total: nat)
  {
    total > 0 ==> (total - 1) * PAYLOAD_BYTES < n
  }

  /** The 32-bit block count never exceeds the blocks needed. */
  lemma {:induction false} CountCovers(n: u64)
    ensures Covers(n, BlockCount(n))
  {
  }

  /** Blocks and bytes of the batch that starts with block `sent`. */
  function BatchBlocks(total: nat, capacity: nat, sent: nat): int
  {
    Min(total - sent, capacity)
  }

  function BatchBytes(n: nat, sent: nat, batch: nat): int
  {
    Min(n - sent * PAYLOAD_BYTES, batch * PAYLOAD_BYTES)
  }

  /** A batch lies inside the data, and its last block has at least one byte. */
  lemma {:induction false} BatchInside(n: nat, total: nat, capacity: nat, sent: nat)
    requires sent < total && capacity > 0 && Covers(n, total)
    ensures var batch := BatchBlocks(total, capacity, sent);
      && 0 < batch && sent + batch <= total && batch <= capacity
      && (batch - 1) * PAYLOAD_BYTES < BatchBytes(n, sent, batch) <= batch * PAYLOAD_BYTES
      && sent * PAYLOAD_BYTES + BatchBytes(n, sent, batch) <= n
      && (sent + batch < total ==> BatchBytes(n, sent, batch) == batch * PAYLOAD_BYTES)
  {
  }

  /** The scratch buffer with the payload of the batch that starts with block `sent`. */
  function LoadBatch(source: seq<byte>, scratch: seq<Block>, total: nat, sent: nat): (loaded: seq<Block>)
    requires Covers(|source|, total) && ReadyBlocks(scratch) && |scratch| > 0 && sent < total
    ensures |loaded| == |scratch| && ReadyBlocks(loaded)
  {
    BatchInside(|source|, total, |scratch|, sent);
    var bytes := BatchBytes(|source|, sent, BatchBlocks(total, |scratch|, sent));
    Loaded(scratch, source, sent * PAYLOAD_BYTES, bytes / PAYLOAD_BYTES, bytes % PAYLOAD_BYTES)
  }

  /** The blocks written from block `sent` on, by a sender whose scratch buffer now holds `scratch`. */
  function Sent(source: seq<byte>, scratch: seq<Block>, total: nat, sent: nat): (blocks: seq<Block>)
    requires Covers(|source|, total) && ReadyBlocks(scratch)
    ensures |scratch| > 0 && sent <= total ==> |blocks| == total - sent
    ensures ReadyBlocks(blocks)
    decreases total - sent
  {
    if |scratch| == 0 || sent >= total then []
    else
      var batch := BatchBlocks(total, |scratch|, sent);
      var loaded := LoadBatch(source, scratch, total, sent);
      loaded[..batch] + Sent(source, loaded, total, sent + batch)
  }

  /** The blocks that one call of `DataAsFlagSend` writes. */
  function SentBlocks(source: seq<byte>, scratch: seq<Block>): (blocks: seq<Block>)
    requires |source| < WORD64 && ReadyBlocks(scratch)
    ensures ReadyBlocks(blocks) && (|scratch| > 0 ==> |blocks| == BlockCount(|source|))
  {
    CountCovers(|source|);
    Sent(source, scratch, BlockCount(|source|), 0)
  }

  /** One batch: payload into the scratch buffer, in whole blocks and a tail. */
  method SendBatch(source: seq<byte>, scratch: seq<Block>, sent: nat, sentBytes: nat, total: nat)
    returns (loaded: seq<Block>, batch: nat, batchBytes: nat)
    requires Covers(|source|, total) && ReadyBlocks(scratch) && |scratch| > 0
    requires sent < total && sentBytes == sent * PAYLOAD_BYTES
    ensures loaded == LoadBatch(source, scratch, total, sent) && batch == BatchBlocks(total, |scratch|, sent)
    ensures sent + batch < total ==> sentBytes + batchBytes == (sent + batch) * PAYLOAD_BYTES
  {
    BatchInside(|source|, total, |scratch|, sent);
    batch := Min(total - sent, |scratch|);
    batchBytes := Min(|source| - sentBytes, batch * PAYLOAD_BYTES);
    var full, tail := batchBytes / PAYLOAD_BYTES, batchBytes % PAYLOAD_BYTES;
    loaded := Loaded(scratch, source, sentBytes, full, tail);
  }

  lemma {:induction false} SentStep(source: seq<byte>, scratch: seq<Block>, total: nat, before: seq<Block>)
    requires Covers(|source|, total) && ReadyBlocks(scratch) && |scratch| > 0 && |before| < total
    ensures var batch, loaded := BatchBlocks(total, |scratch|, |before|), LoadBatch(source, scratch, total, |before|);
      && 0 < batch <= |scratch| && |before| + batch <= total
      && Unsent(source, scratch, total, before) == Unsent(source, loaded, total, before + loaded[..batch])
  {
  }

  /** Blocks already written, followed by those still to come. */
  function Unsent(source: seq<byte>, scratch: seq<Block>, total: nat, blocks: seq<Block>): seq<Block>
    requires Covers(|source|, total) && ReadyBlocks(scratch)
  {
    blocks + Sent(source, scratch, total, |blocks|)
  }

  /** The loop over batches. */
  method SendBatches(source: seq<byte>, scratch: seq<Block>, total: nat) returns (blocks: seq<Block>)
    requires Covers(|source|, total) && ReadyBlocks(scratch) && |scratch| > 0
    ensures blocks == Sent(source, scratch, total, 0)
  {
    blocks := [];
    var current := scratch;
    var sentBytes := 0;
    while |blocks| < total
      invariant |blocks| <= total && |current| == |scratch| && ReadyBlocks(current) && 0 <= sentBytes
      invariant |blocks| < total ==> sentBytes == |blocks| * PAYLOAD_BYTES
      invariant Unsent(source, current, total, blocks) == Unsent(source, scratch, total, [])
    {
      SentStep(source, current, total, blocks);
      var loaded, batch, batchBytes := SendBatch(source, current, |blocks|, sentBytes, total);
      current := loaded;
      blocks := blocks + current[..batch];
      sentBytes := sentBytes + batchBytes;
    }
    assert Sent(source, current, total, |blocks|) == [];
    assert Unsent(source, scratch, total, []) == Sent(source, scratch, total, 0);
  }

  /** `DataAsFlagSend`: the blocks it writes, batch after batch through the scratch buffer; none without data or room. */
  method Send(source: seq<byte>, scratch: seq<Block>) returns (blocks: seq<Block>)
    requires |source| < WORD64 && ReadyBlocks(scratch)
    ensures blocks == SentBlocks(source, scratch)
  {
    CountCovers(|source|);
    if |source| == 0 || |scratch| == 0 {
      return [];
    }
    blocks := SendBatches(source, scratch, BlockCount(|source|));
  }

  // When sending is right

  /** Whole blocks in the largest batch, which is the first. */
  function SendWhole(n: nat, total: nat, capacity: nat): int
  {
    Min(n / PAYLOAD_BYTES, Min(total, capacity))
  }

  /** Every block of a batch is one of its whole blocks or holds its tail, which ends the data. */
  lemma {:induction false} WholeOrTail(n: nat, total: nat, capacity: nat, sent: nat, j: nat)
    requires Covers(n, total) && sent < total && capacity > 0 && j < BatchBlocks(total, capacity, sent)
    ensures var bytes := BatchBytes(n, sent, BatchBlocks(total, capacity, sent));
      && 0 <= bytes && sent * PAYLOAD_BYTES + bytes <= n && bytes / PAYLOAD_BYTES <= SendWhole(n, total, capacity)
      && (j < bytes / PAYLOAD_BYTES ||
          (j == bytes / PAYLOAD_BYTES && bytes % PAYLOAD_BYTES > 0 && sent * PAYLOAD_BYTES + bytes == n))
  {
    BatchInside(n, total, capacity, sent);
  }

  lemma {:induction false} LoadedCarries(b: Block, source: seq<byte>, sent: nat, full: nat, tail: nat, j: nat)
    requires ReadyBlock(b) && tail < PAYLOAD_BYTES && (sent + full) * PAYLOAD_BYTES + tail <= |source| && full < U16
    requires j < full || (j == full && tail > 0 && (sent + full) * PAYLOAD_BYTES + tail == |source|)
    ensures Carries(LoadedBlock(b, source, sent * PAYLOAD_BYTES, full, tail, j), source, sent + j)
  {
    assert full % U16 == full;
  }

  /** A batch with fewer than 2^16 whole blocks loads every one of its blocks. */
  lemma {:induction false} BatchCarries(source: seq<byte>, scratch: seq<Block>, total: nat, sent: nat, index: nat)
    requires Covers(|source|, total) && ReadyBlocks(scratch) && |scratch| > 0 && sent < total
    requires SendWhole(|source|, total, |scratch|) < U16
    requires sent <= index < sent + BatchBlocks(total, |scratch|, sent)
    ensures Carries(LoadBatch(source, scratch, total, sent)[index - sent], source, index)
  {
    var k := index - sent;
    WholeOrTail(|source|, total, |scratch|, sent, k);
    var bytes := BatchBytes(|source|, sent, BatchBlocks(total, |scratch|, sent));
    LoadedCarries(scratch[k], source, sent, bytes / PAYLOAD_BYTES, bytes % PAYLOAD_BYTES, k);
  }

  /** Blocks that carry the source from its block `first` on. */
  ghost predicate CarryFrom(source: seq<byte>, blocks: seq<Block>, first: nat)
  {
    forall k :: 0 <= k < |blocks| ==> Carries(blocks[k], source, first + k)
  }

  lemma {:induction false} JoinedCarry(
    source: seq<byte>, head: seq<Block>, rest: seq<Block>, all: seq<Block>, first: nat)
    requires all == head + rest && CarryFrom(source, head, first) && CarryFrom(source, rest, first + |head|)
    ensures CarryFrom(source, all, first)
  {
    forall k | |head| <= k < |all|
      ensures Carries(all[k], source, first + k)
    {
      assert Carries(rest[k - |head|], source, first + |head| + (k - |head|));
    }
  }

  lemma {:induction false} BatchCarryFrom(source: seq<byte>, scratch: seq<Block>, total: nat, sent: nat)
    requires Covers(|source|, total) && ReadyBlocks(scratch) && |scratch| > 0 && sent < total
    requires SendWhole(|source|, total, |scratch|) < U16
    ensures var batch := BatchBlocks(total, |scratch|, sent);
      0 < batch <= |scratch| && CarryFrom(source, LoadBatch(source, scratch, total, sent)[..batch], sent)
  {
    var head := LoadBatch(source, scratch, total, sent)[..BatchBlocks(total, |scratch|, sent)];
    forall k | 0 <= k < |head|
      ensures Carries(head[k], source, sent + k)
    {
      BatchCarries(source, scratch, total, sent, sent + k);
    }
  }

  lemma {:induction false} SentCarries(source: seq<byte>, scratch: seq<Block>, total: nat, sent: nat)
    requires Covers(|source|, total) && ReadyBlocks(scratch) && SendWhole(|source|, total, |scratch|) < U16
    ensures CarryFrom(source, Sent(source, scratch, total, sent), sent)
    decreases total - sent
  {
    if |scratch| > 0 && sent < total {
      var batch, loaded := BatchBlocks(total, |scratch|, sent), LoadBatch(source, scratch, total, sent);
      BatchCarryFrom(source, scratch, total, sent);
      SentCarries(source, loaded, total, sent + batch);
      JoinedCarry(source, loaded[..batch], Sent(source, loaded, total, sent + batch),
                  Sent(source, scratch, total, sent), sent);
    }
  }

  /** With 2^16 whole blocks or more in the first batch, this block keeps what the scratch buffer held. */
  lemma {:induction false} StaleInBatch(source: seq<byte>, scratch: seq<Block>, total: nat) returns (j: nat)
    requires Covers(|source|, total) && ReadyBlocks(scratch) && SendWhole(|source|, total, |scratch|) >= U16
    ensures j == SendWhole(|source|, total, |scratch|) % U16 < total && (j + 1) * PAYLOAD_BYTES <= |source|
    ensures j < |scratch| && Sent(source, scratch, total, 0)[j] == scratch[j]
  {
    j := SendWhole(|source|, total, |scratch|) % U16;
    BatchInside(|source|, total, |scratch|, 0);
  }

  /** Whatever payload the scratch buffer held before, every written block carries its part of the source. */
  ghost predicate SendReliable(n: u64, capacity: nat)
  {
    forall source: seq<byte>, scratch: seq<Block> ::
      |source| == n && |scratch| == capacity && ReadyBlocks(scratch) ==> AllCarry(source, SentBlocks(source, scratch))
  }

  /** The whole blocks of the largest batch, from byte count and blocks of scratch. */
  function LargestWhole(n: u64, capacity: nat): int
  {
    SendWhole(n, BlockCount(n), capacity)
  }

  lemma {:induction false} SentAllCarry(source: seq<byte>, scratch: seq<Block>)
    requires |source| < WORD64 && ReadyBlocks(scratch) && LargestWhole(|source|, |scratch|) < U16
    ensures AllCarry(source, SentBlocks(source, scratch))
  {
    CountCovers(|source|);
    SentCarries(source, scratch, BlockCount(|source|), 0);
    CarryFromStart(source, SentBlocks(source, scratch));
  }

  lemma {:induction false} CarryFromStart(source: seq<byte>, blocks: seq<Block>)
    requires CarryFrom(source, blocks, 0)
    ensures AllCarry(source, blocks)
  {
    forall k | 0 <= k < |blocks|
      ensures Carries(blocks[k], source, k)
    {
      assert Carries(blocks[k], source, 0 + k);
    }
  }

  lemma {:induction false} StaleBlock(source: seq<byte>, scratch: seq<Block>) returns (j: nat)
    requires |source| < WORD64 && ReadyBlocks(scratch) && LargestWhole(|source|, |scratch|) >= U16
    ensures j == LargestWhole(|source|, |scratch|) % U16 < |SentBlocks(source, scratch)|
    ensures (j + 1) * PAYLOAD_BYTES <= |source| && j < |scratch| && SentBlocks(source, scratch)[j] == scratch[j]
  {
    CountCovers(|source|);
    j := StaleInBatch(source, scratch, BlockCount(|source|));
  }

  /** A scratch buffer whose payload differs from a source of zeros. */
  function OnesScratch(capacity: nat): (scratch: seq<Block>)
    ensures |scratch| == capacity && ReadyBlocks(scratch)
    ensures forall j :: 0 <= j < capacity ==> scratch[j].payload[0] == 1
  {
    seq(capacity, j => Block(seq(PAYLOAD_BYTES, i => 1), READY))
  }

  /**
   Sending is right, whatever the scratch buffer held before, if and only if the
   first batch has fewer than 2^16 whole blocks.
   */
  lemma {:induction false} SendExact(n: u64, capacity: nat)
    ensures SendReliable(n, capacity) <==> LargestWhole(n, capacity) < U16
  {
    if LargestWhole(n, capacity) < U16 {
      forall source: seq<byte>, scratch: seq<Block> | |source| == n && |scratch| == capacity && ReadyBlocks(scratch)
        ensures AllCarry(source, SentBlocks(source, scratch))
      {
        SentAllCarry(source, scratch);
      }
    } else {
      var source: seq<byte> := seq(n, i => 0);
      var scratch := OnesScratch(capacity);
      var j := StaleBlock(source, scratch);
      assert Chunk(source, j)[0] == 0;
      assert !Carries(SentBlocks(source, scratch)[j], source, j);
      assert !AllCarry(source, SentBlocks(source, scratch));
    }
  }

  /**
   65536 * 480 zero bytes through a freshly initialised scratch buffer of 65536
   blocks: the count of whole blocks becomes zero, and block 0 goes out with its
   flag set and the initial scratch contents as payload. One byte more than 65535
   blocks through the same buffer is still right.
   */
  lemma {:induction false} SendFailsAt65536Blocks(source: seq<byte>)
    requires |source| == 0x1_0000 * PAYLOAD_BYTES && forall i :: 0 <= i < |source| ==> source[i] == 0
    ensures var blocks := SentBlocks(source, InitScratch(0x1_0000));
      |blocks| == 0x1_0000 && ReadyBlock(blocks[0]) && blocks[0].payload[2] == 0x80 && !Carries(blocks[0], source, 0)
    ensures SendReliable(0xFFFF * PAYLOAD_BYTES + 1, 0x1_0000) && !SendReliable(0x1_0000 * PAYLOAD_BYTES, 0x1_0000)
  {
    LargestWholeAt();
    var j := StaleBlock(source, InitScratch(0x1_0000));
    assert Chunk(source, 0)[2] == 0;
    SendExact(0xFFFF * PAYLOAD_BYTES + 1, 0x1_0000);
    SendExact(0x1_0000 * PAYLOAD_BYTES, 0x1_0000);
  }

  lemma {:induction false} LargestWholeAt()
    ensures LargestWhole(0x1_0000 * PAYLOAD_BYTES, 0x1_0000) == 0x1_0000
    ensures LargestWhole(0xFFFF * PAYLOAD_BYTES + 1, 0x1_0000) == 0xFFFF
    ensures BlockCount(0x1_0000 * PAYLOAD_BYTES) == 0x1_0000
  {
  }
}
