/**
 Whole transfers: what the receiver delivers when it runs beside the sender, over
 all interleavings, batch sizes and old scratch contents, and exactly when that is
 the source.
 */
module DataAsFlagTransfer {
  import opened DataAsFlagSizes
  import opened DataAsFlag
  import opened DataAsFlagReceive
  import opened Wrappers

  /** Bytes that the counted blocks of an `n`-byte transfer hold. */
  function HeldBytes(n: u64): int
  {
    Min(n, BlockCount(n) * PAYLOAD_BYTES)
  }

  /** All bytes are held if and only if the 32-bit block count is right. */
  lemma {:induction false} HeldExact(n: u64)
    ensures HeldBytes(n) == n <==> n <= PAYLOAD_BYTES * (WORD32 - 1)
  {
    BlockCountExact(n);
    CountCovers(n);
  }

  /** Blocks in the largest receive batch, which is the first. */
  function RecvBatch(n: u64, scratchBytes: u32): int
  {
    Min(BlockCount(n), RecvCapacity(scratchBytes))
  }

  /** A receive that returns has delivered the source, as far as the counted blocks hold it. */
  ghost predicate Delivers(source: seq<byte>, w: World, scratchBytes: u32, patience: nat)
    requires |source| < WORD64
  {
    var r := Receive(w, |source|, scratchBytes, patience);
    r.Some? ==> r.value == source[..HeldBytes(|source|)]
  }

  lemma {:induction false} ReceivedAsSent(w: World, n: u64, sent: seq<Block>, scratchBytes: u32, patience: nat)
    requires Timeline(sent, BlockCount(n), w.mem) && ReadyBlocks(sent) && RecvBatch(n, scratchBytes) < U16
    requires Receive(w, n, scratchBytes, patience).Some?
    ensures Receive(w, n, scratchBytes, patience).value == SentBytes(sent, 0, HeldBytes(n))
  {
    if n > 0 {
      DeliveredAsSent(w, RecvOrder(n, scratchBytes), sent, 0, 0, patience);
    }
  }

  lemma {:induction false} DeliversCarried(
    source: seq<byte>, sent: seq<Block>, w: World, scratchBytes: u32, patience: nat)
    requires |source| < WORD64 && |sent| == BlockCount(|source|) && AllCarry(source, sent)
    requires Timeline(sent, BlockCount(|source|), w.mem) && RecvBatch(|source|, scratchBytes) < U16
    ensures Delivers(source, w, scratchBytes, patience)
  {
    if Receive(w, |source|, scratchBytes, patience).Some? {
      ReceivedAsSent(w, |source|, sent, scratchBytes, patience);
      CarriedBytes(source, sent, HeldBytes(|source|));
    }
  }

  // Worlds in which a receive returns

  function HiddenBlock(): (b: Block)
    ensures |b.payload| == PAYLOAD_BYTES && b.flag == 0 && forall i :: 0 <= i < PAYLOAD_BYTES ==> b.payload[i] == 1
  {
    Block(seq(PAYLOAD_BYTES, i => 1), 0)
  }

  /** The first `hidden` blocks are not visible yet; the others are. */
  function PartlyHidden(sent: seq<Block>, hidden: nat): (mem: seq<Block>)
    ensures |mem| == |sent|
    ensures forall k :: 0 <= k < |sent| ==> mem[k] == if k < hidden then HiddenBlock() else sent[k]
  {
    seq(|sent|, k requires 0 <= k < |sent| => if k < hidden then HiddenBlock() else sent[k])
  }

  /** Nothing happens while the receiver runs; old scratch contents make up for flags that are not counted. */
  function StillWorld(sent: seq<Block>, hidden: nat): World
  {
    World(t => PartlyHidden(sent, hidden),
          Stale((t, offset, batch) => if offset < hidden then batch else batch - batch % U16, (t, i) => 1))
  }

  lemma {:induction false} StillTimeline(sent: seq<Block>, hidden: nat)
    requires ReadyBlocks(sent)
    ensures Timeline(sent, |sent|, StillWorld(sent, hidden).mem)
  {
    var mem := StillWorld(sent, hidden).mem;
    assert forall t :: mem(t) == PartlyHidden(sent, hidden);
  }

  lemma {:induction false} StillFlagSum(sent: seq<Block>, hidden: nat, t: nat, offset: nat, n: nat)
    requires ReadyBlocks(sent) && offset + n <= |sent| && (offset + n <= hidden || hidden <= offset)
    ensures FlagSum(StillWorld(sent, hidden), t, offset, n) == if hidden <= offset then n else 0
  {
    if n > 0 {
      StillFlagSum(sent, hidden, t, offset, n - 1);
    }
  }

  /** Every batch passes: visible ones by their flags, a hidden one of 2^16 blocks or more by old scratch contents. */
  lemma {:induction false} StillPasses(sent: seq<Block>, hidden: nat, t: nat, offset: nat, batch: nat, room: nat -> bool)
    requires ReadyBlocks(sent) && offset + batch <= |sent| && room(batch)
    requires hidden <= offset || (offset + batch <= hidden && batch >= U16)
    ensures BatchPasses(StillWorld(sent, hidden), t, offset, batch, room)
  {
    StillFlagSum(sent, hidden, t, offset, batch % U16);
  }

  ghost predicate HasRoom(o: Order)
  {
    forall b: nat :: 0 < b <= o.capacity ==> o.room(b)
  }

  lemma {:induction false} StillReturns(o: Order, sent: seq<Block>, hidden: nat, processed: nat, t: nat)
    requires o.Valid() && HasRoom(o) && ReadyBlocks(sent) && |sent| == o.total && hidden <= processed
    ensures Delivery(StillWorld(sent, hidden), o, processed, t, 0).Some?
    decreases o.total - processed
  {
    if processed < o.total {
      BatchInside(o.n, o.total, o.capacity, processed);
      var batch := o.Batch(processed);
      StillPasses(sent, hidden, t, processed, batch, o.room);
      StillReturns(o, sent, hidden, processed + batch, t + 2 * batch);
    }
  }

  /** With a first batch of 2^16 blocks or more, a receive returns before that batch is there. */
  lemma {:induction false} BlindReturns(o: Order, sent: seq<Block>)
    requires o.Valid() && HasRoom(o) && ReadyBlocks(sent) && |sent| == o.total && Min(o.total, o.capacity) >= U16
    ensures var r := Delivery(StillWorld(sent, o.Batch(0)), o, 0, 0, 0);
      r.Some? && |r.value| > 0 && r.value[0] == 1
  {
    var batch := o.Batch(0);
    var w := StillWorld(sent, batch);
    BatchInside(o.n, o.total, o.capacity, 0);
    StillPasses(sent, batch, 0, 0, batch, o.room);
    StillReturns(o, sent, batch, batch, 2 * batch);
    var bytes := o.Bytes(0);
    assert bytes / PAYLOAD_BYTES > 0;
    assert CopiedByte(w, batch, 0, bytes, 0) == 1;
    assert CopiedBatch(w, batch, 0, bytes)[0] == 1;
  }

  lemma {:induction false} RecvHasRoom(n: u64, scratchBytes: u32)
    ensures HasRoom(RecvOrder(n, scratchBytes))
  {
    forall b: nat | 0 < b <= RecvCapacity(scratchBytes)
      ensures Room(scratchBytes)(b)
    {
      RecvSplitFits(scratchBytes, b);
    }
  }

  // When receiving is right

  /** For every sender, interleaving and old scratch content, a receive that returns has delivered the source. */
  ghost predicate ReceiveReliable(n: u64, scratchBytes: u32)
  {
    forall source: seq<byte>, sent: seq<Block>, w: World, patience: nat ::
      |source| == n && |sent| == BlockCount(n) && AllCarry(source, sent) && Timeline(sent, |sent|, w.mem) ==>
        Delivers(source, w, scratchBytes, patience)
  }

  /** Blocks that carry a source of zeros. */
  lemma {:induction false} ZerosSent(n: u64) returns (source: seq<byte>, sent: seq<Block>)
    ensures |source| == n && (forall i :: 0 <= i < n ==> source[i] == 0)
    ensures |sent| == BlockCount(n) && AllCarry(source, sent) && ReadyBlocks(sent)
  {
    source := seq(n, i => 0);
    sent := SentBlocks(source, OnesScratch(1));
    SentAllCarry(source, OnesScratch(1));
  }

  /** With a first batch of 2^16 blocks or more there is an execution that delivers a wrong first byte. */
  lemma {:induction false} BlindReceive(source: seq<byte>, sent: seq<Block>, scratchBytes: u32) returns (w: World)
    requires |source| < WORD64 && RecvBatch(|source|, scratchBytes) >= U16 && source[..1] == [0]
    requires |sent| == BlockCount(|source|) && ReadyBlocks(sent)
    ensures Timeline(sent, |sent|, w.mem) && !Delivers(source, w, scratchBytes, 0)
  {
    var n := |source|;
    var o := RecvOrder(n, scratchBytes);
    RecvHasRoom(n, scratchBytes);
    BlindReturns(o, sent);
    w := StillWorld(sent, o.Batch(0));
    StillTimeline(sent, o.Batch(0));
    assert source[..HeldBytes(n)][0] == source[..1][0];
  }

  /**
   Receiving is right, for every sender, interleaving and old scratch content, if and
   only if the first batch has fewer than 2^16 blocks.
   */
  lemma {:induction false} ReceiveExact(n: u64, scratchBytes: u32)
    ensures ReceiveReliable(n, scratchBytes) <==> RecvBatch(n, scratchBytes) < U16
  {
    if RecvBatch(n, scratchBytes) < U16 {
      forall source: seq<byte>, sent: seq<Block>, w: World, patience: nat |
        |source| == n && |sent| == BlockCount(n) && AllCarry(source, sent) && Timeline(sent, |sent|, w.mem)
        ensures Delivers(source, w, scratchBytes, patience)
      {
        DeliversCarried(source, sent, w, scratchBytes, patience);
      }
    } else {
      var source, sent := ZerosSent(n);
      var w := BlindReceive(source, sent, scratchBytes);
      assert AllCarry(source, sent) && Timeline(sent, |sent|, w.mem);
    }
  }

  // When a whole transfer is right

  /** For every source, interleaving and old contents of both scratch buffers, a receive that returns has delivered it. */
  ghost predicate TransferReliable(n: u64, sendBlocks: nat, recvScratch: u32)
  {
    forall source: seq<byte>, scratch: seq<Block>, w: World, patience: nat ::
      |source| == n && |scratch| == sendBlocks && ReadyBlocks(scratch) &&
      Timeline(SentBlocks(source, scratch), BlockCount(n), w.mem) ==>
        Delivers(source, w, recvScratch, patience)
  }

  /** A sender with a stale block beside a receiver that reads correctly: the stale byte arrives. */
  lemma {:induction false} StaleArrives(source: seq<byte>, scratch: seq<Block>, recvScratch: u32) returns (w: World)
    requires |source| < WORD64 && ReadyBlocks(scratch) && LargestWhole(|source|, |scratch|) >= U16
    requires forall i :: 0 <= i < |source| ==> source[i] == 0
    requires forall j :: 0 <= j < |scratch| ==> scratch[j].payload[0] == 1
    requires 0 < RecvBatch(|source|, recvScratch) < U16
    ensures Timeline(SentBlocks(source, scratch), BlockCount(|source|), w.mem) && !Delivers(source, w, recvScratch, 0)
  {
    var n, sent := |source|, SentBlocks(source, scratch);
    var o := RecvOrder(n, recvScratch);
    w := StillWorld(sent, 0);
    StillTimeline(sent, 0);
    RecvHasRoom(n, recvScratch);
    StillReturns(o, sent, 0, 0, 0);
    ReceivedAsSent(w, n, sent, recvScratch, 0);
    var j := StaleBlock(source, scratch);
    StaleByte(sent, j, HeldBytes(n));
    assert source[..HeldBytes(n)][j * PAYLOAD_BYTES] == 0;
  }

  lemma {:induction false} StaleByte(sent: seq<Block>, j: nat, to: int)
    requires j < |sent| && ReadyBlock(sent[j]) && j * PAYLOAD_BYTES < to
    ensures |SentBytes(sent, 0, to)| == to && SentBytes(sent, 0, to)[j * PAYLOAD_BYTES] == sent[j].payload[0]
  {
    assert j * PAYLOAD_BYTES / PAYLOAD_BYTES == j && j * PAYLOAD_BYTES % PAYLOAD_BYTES == 0;
  }

  /**
   A transfer is right, over all interleavings and whatever both scratch buffers held
   before, if and only if the receiver's first batch has fewer than 2^16 blocks and, if
   it receives anything, the sender's first batch has fewer than 2^16 whole blocks.
   A sender without room for one block sends nothing.
   */
  lemma {:induction false} TransferExact(n: u64, sendBlocks: nat, recvScratch: u32)
    requires sendBlocks > 0
    ensures TransferReliable(n, sendBlocks, recvScratch) <==>
      RecvBatch(n, recvScratch) < U16 && (RecvBatch(n, recvScratch) == 0 || LargestWhole(n, sendBlocks) < U16)
  {
    if RecvBatch(n, recvScratch) >= U16 {
      var source: seq<byte>, scratch := seq(n, i => 0), OnesScratch(sendBlocks);
      var w := BlindReceive(source, SentBlocks(source, scratch), recvScratch);
      assert ReadyBlocks(scratch);
    } else if RecvBatch(n, recvScratch) > 0 && LargestWhole(n, sendBlocks) >= U16 {
      var source: seq<byte>, scratch := seq(n, i => 0), OnesScratch(sendBlocks);
      var w := StaleArrives(source, scratch, recvScratch);
      assert ReadyBlocks(scratch);
    } else {
      forall source: seq<byte>, scratch: seq<Block>, w: World, patience: nat |
        |source| == n && |scratch| == sendBlocks && ReadyBlocks(scratch) &&
        Timeline(SentBlocks(source, scratch), BlockCount(n), w.mem)
        ensures Delivers(source, w, recvScratch, patience)
      {
        TransferDelivers(source, scratch, w, recvScratch, patience);
      }
    }
  }

  lemma {:induction false} TransferDelivers(
    source: seq<byte>, scratch: seq<Block>, w: World, recvScratch: u32, patience: nat)
    requires |source| < WORD64 && ReadyBlocks(scratch) && |scratch| > 0
    requires Timeline(SentBlocks(source, scratch), BlockCount(|source|), w.mem)
    requires RecvBatch(|source|, recvScratch) < U16
    requires RecvBatch(|source|, recvScratch) == 0 || LargestWhole(|source|, |scratch|) < U16
    ensures Delivers(source, w, recvScratch, patience)
  {
    if LargestWhole(|source|, |scratch|) < U16 {
      SentAllCarry(source, scratch);
      DeliversCarried(source, SentBlocks(source, scratch), w, recvScratch, patience);
    }
  }

  // When a single look is right

  /** A check that says yes has seen every block visible, whatever the sender and the old scratch contents. */
  ghost predicate CheckReliable(n: u64, scratchBytes: u32)
  {
    forall sent: seq<Block>, w: World ::
      |sent| == BlockCount(n) && ReadyBlocks(sent) && Timeline(sent, |sent|, w.mem) ==>
        (CheckAnswer(w, n, scratchBytes) ==> AllVisible(w.mem, |sent|, 0, |sent|))
  }

  /** The scratch buffer has room for every batch of a check. */
  predicate SplitsFit(total: nat, capacity: nat, room: nat -> bool, checked: nat)
    requires capacity > 0
    decreases total - checked
  {
    checked >= total ||
    var batch := BatchBlocks(total, capacity, checked);
    room(batch) && SplitsFit(total, capacity, room, checked + batch)
  }

  lemma {:induction false} PassNeedsRoom(w: World, total: nat, capacity: nat, room: nat -> bool, checked: nat)
    requires capacity > 0 && AllPass(w, total, capacity, room, checked)
    ensures SplitsFit(total, capacity, room, checked)
    decreases total - checked
  {
    if checked < total {
      PassNeedsRoom(w, total, capacity, room, checked + BatchBlocks(total, capacity, checked));
    }
  }

  lemma {:induction false} StillAllPass(
    sent: seq<Block>, hidden: nat, capacity: nat, room: nat -> bool, checked: nat)
    requires capacity > 0 && ReadyBlocks(sent) && checked <= |sent| && SplitsFit(|sent|, capacity, room, checked)
    requires hidden <= checked || (checked == 0 && hidden == BatchBlocks(|sent|, capacity, 0) >= U16)
    ensures AllPass(StillWorld(sent, hidden), |sent|, capacity, room, checked)
    decreases |sent| - checked
  {
    if checked < |sent| {
      var batch := BatchBlocks(|sent|, capacity, checked);
      StillPasses(sent, hidden, checked, checked, batch, room);
      StillAllPass(sent, hidden, capacity, room, checked + batch);
    }
  }

  /**
   A single look is right if and only if its first batch has fewer than 2^16 blocks, or
   the scratch buffer lacks room for some batch, so that it never says yes. The latter
   takes 2^31 bytes of scratch or more, where the capacity search goes wrong.
   */
  lemma {:induction false} CheckExact(n: u64, scratchBytes: u32)
    ensures CheckReliable(n, scratchBytes) <==>
      Min(BlockCount(n), CheckCapacity(scratchBytes)) < U16 ||
      !SplitsFit(BlockCount(n), CheckCapacity(scratchBytes), Room(scratchBytes), 0)
  {
    var total, capacity, room := BlockCount(n), CheckCapacity(scratchBytes), Room(scratchBytes);
    if Min(total, capacity) >= U16 && SplitsFit(total, capacity, room, 0) {
      var source, sent := ZerosSent(n);
      var hidden := BatchBlocks(total, capacity, 0);
      StillTimeline(sent, hidden);
      StillAllPass(sent, hidden, capacity, room, 0);
      var w := StillWorld(sent, hidden);
      assert !Visible(w.mem, |sent|, 0);
      assert CheckAnswer(w, n, scratchBytes) && Timeline(sent, |sent|, w.mem);
    } else {
      forall sent: seq<Block>, w: World |
        |sent| == total && ReadyBlocks(sent) && Timeline(sent, |sent|, w.mem) && CheckAnswer(w, n, scratchBytes)
        ensures AllVisible(w.mem, |sent|, 0, |sent|)
      {
        if total > 0 {
          PassNeedsRoom(w, total, capacity, room, 0);
          AllPassMeans(w, sent, total, capacity, room, 0);
        }
      }
    }
  }

  lemma {:induction false} SplitsFitBelow(scratchBytes: u32, total: nat, checked: nat)
    requires scratchBytes < 0x8000_0000 && CheckCapacity(scratchBytes) > 0
    ensures SplitsFit(total, CheckCapacity(scratchBytes), Room(scratchBytes), checked)
    decreases total - checked
  {
    if checked < total {
      var batch := BatchBlocks(total, CheckCapacity(scratchBytes), checked);
      CheckRequired(batch);
      SplitsFitBelow(scratchBytes, total, checked + batch);
    }
  }

  /** Below 2^31 bytes of scratch a single look is right if and only if its first batch has fewer than 2^16 blocks. */
  lemma {:induction false} CheckExactBelow(n: u64, scratchBytes: u32)
    requires scratchBytes < 0x8000_0000
    ensures CheckReliable(n, scratchBytes) <==> Min(BlockCount(n), CheckCapacity(scratchBytes)) < U16
  {
    CheckExact(n, scratchBytes);
    if CheckCapacity(scratchBytes) > 0 {
      SplitsFitBelow(scratchBytes, BlockCount(n), 0);
    }
  }

  // The first inputs that fail

  /**
   Through a send buffer of 65536 blocks and a receive buffer of one block, 65535 blocks
   and one byte arrive, 65536 blocks do not. With room for 65536 blocks on the receiving
   side both fail, since flags are counted per block, whole or not.
   */
  lemma {:induction false} TransferEdges()
    ensures TransferReliable(0xFFFF * PAYLOAD_BYTES + 1, U16, RecvNeed(1))
    ensures !TransferReliable(U16 * PAYLOAD_BYTES, U16, RecvNeed(1))
    ensures !ReceiveReliable(0xFFFF * PAYLOAD_BYTES + 1, RecvNeed(U16))
    ensures !ReceiveReliable(U16 * PAYLOAD_BYTES, RecvNeed(U16))
    ensures ReceiveReliable(U16 * PAYLOAD_BYTES, RecvNeed(U16) - 1)
  {
    LargestWholeAt();
    EdgeBatches();
    TransferExact(0xFFFF * PAYLOAD_BYTES + 1, U16, RecvNeed(1));
    TransferExact(U16 * PAYLOAD_BYTES, U16, RecvNeed(1));
    ReceiveExact(0xFFFF * PAYLOAD_BYTES + 1, RecvNeed(U16));
    ReceiveExact(U16 * PAYLOAD_BYTES, RecvNeed(U16));
    ReceiveExact(U16 * PAYLOAD_BYTES, RecvNeed(U16) - 1);
  }

  lemma {:induction false} EdgeBatches()
    ensures RecvBatch(0xFFFF * PAYLOAD_BYTES + 1, RecvNeed(1)) == RecvBatch(U16 * PAYLOAD_BYTES, RecvNeed(1)) == 1
    ensures RecvBatch(0xFFFF * PAYLOAD_BYTES + 1, RecvNeed(U16)) == RecvBatch(U16 * PAYLOAD_BYTES, RecvNeed(U16)) == U16
    ensures RecvBatch(U16 * PAYLOAD_BYTES, RecvNeed(U16) - 1) == 0xFFFF
  {
  }
}
