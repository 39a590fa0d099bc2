/**
 When a check says yes and when a receive returns. Both are decided by what is
 visible when the flags are read, as long as batches have fewer than 2^16 blocks.
 */
module DataAsFlagProgress {
  import opened DataAsFlagSizes
  import opened DataAsFlag
  import opened DataAsFlagReceive
  import opened DataAsFlagTransfer
  import opened Wrappers

  // A single look

  /** Every block from `from` on is visible when a check reads its flag, which for block `k` is time `k`. */
  ghost predicate SeenInTurn(mem: nat -> seq<Block>, from: nat, total: nat)
  {
    forall k: nat :: from <= k < total ==> Visible(mem, k, k)
  }

  /** Flags are 0 or 1, so their sum equals their number if and only if each was set when it was read. */
  lemma {:induction false} FlagSumExact(w: World, sent: seq<Block>, total: nat, offset: nat, n: nat)
    requires Timeline(sent, total, w.mem) && ReadyBlocks(sent) && offset + n <= total
    ensures FlagSum(w, offset, offset, n) <= n
    ensures FlagSum(w, offset, offset, n) == n <==> SeenInTurn(w.mem, offset, offset + n)
  {
    if n > 0 {
      var k := offset + n - 1;
      FlagSumExact(w, sent, total, offset, n - 1);
      assert Snapshot(sent, total, w.mem(k));
      assert SeenInTurn(w.mem, offset, offset + n) <==> SeenInTurn(w.mem, offset, k) && Visible(w.mem, k, k);
    }
  }

  lemma {:induction false} BatchExact(
    w: World, sent: seq<Block>, total: nat, offset: nat, batch: nat, room: nat -> bool)
    requires Timeline(sent, total, w.mem) && ReadyBlocks(sent) && offset + batch <= total && batch < U16
    ensures BatchPasses(w, offset, offset, batch, room) <==> room(batch) && SeenInTurn(w.mem, offset, offset + batch)
  {
    FlagSumExact(w, sent, total, offset, batch);
  }

  lemma {:induction false} AllPassExact(
    w: World, sent: seq<Block>, total: nat, capacity: nat, room: nat -> bool, checked: nat)
    requires capacity > 0 && Min(total, capacity) < U16 && checked <= total
    requires Timeline(sent, total, w.mem) && ReadyBlocks(sent)
    ensures AllPass(w, total, capacity, room, checked) <==>
      SplitsFit(total, capacity, room, checked) && SeenInTurn(w.mem, checked, total)
    decreases total - checked
  {
    if checked < total {
      var batch := BatchBlocks(total, capacity, checked);
      AllPassStep(w, total, capacity, room, checked);
      BatchExact(w, sent, total, checked, batch, room);
      AllPassExact(w, sent, total, capacity, room, checked + batch);
      SeenSplits(w.mem, checked, checked + batch, total);
    }
  }

  lemma {:induction false} SeenSplits(mem: nat -> seq<Block>, from: nat, middle: nat, total: nat)
    requires from <= middle <= total
    ensures SeenInTurn(mem, from, total) <==> SeenInTurn(mem, from, middle) && SeenInTurn(mem, middle, total)
  {
  }

  /**
   With a first batch of fewer than 2^16 blocks, a check says yes if and only if there
   is nothing to check, or the scratch buffer has room for every batch and every block
   is visible when its flag is read.
   */
  lemma {:induction false} CheckDecides(w: World, sent: seq<Block>, n: u64, scratchBytes: u32)
    requires Timeline(sent, BlockCount(n), w.mem) && ReadyBlocks(sent)
    requires Min(BlockCount(n), CheckCapacity(scratchBytes)) < U16
    ensures CheckAnswer(w, n, scratchBytes) <==>
      n == 0 ||
      (CheckCapacity(scratchBytes) > 0 &&
       SplitsFit(BlockCount(n), CheckCapacity(scratchBytes), Room(scratchBytes), 0) &&
       SeenInTurn(w.mem, 0, BlockCount(n)))
  {
    if CheckCapacity(scratchBytes) > 0 {
      AllPassExact(w, sent, BlockCount(n), CheckCapacity(scratchBytes), Room(scratchBytes), 0);
    }
  }

  /** From 96 bytes of scratch up to 2^31 there is room, and the answer depends on the blocks alone. */
  lemma {:induction false} CheckDecidesBelow(w: World, sent: seq<Block>, n: u64, scratchBytes: u32)
    requires Timeline(sent, BlockCount(n), w.mem) && ReadyBlocks(sent)
    requires Min(BlockCount(n), CheckCapacity(scratchBytes)) < U16 && CheckNeed(1) <= scratchBytes < 0x8000_0000
    ensures CheckAnswer(w, n, scratchBytes) <==> SeenInTurn(w.mem, 0, BlockCount(n))
  {
    CheckDecides(w, sent, n, scratchBytes);
    SplitsFitBelow(scratchBytes, BlockCount(n), 0);
  }

  // Receiving

  /** Flags of visible blocks are all counted. */
  lemma {:induction false} FlagSumFull(w: World, sent: seq<Block>, total: nat, t: nat, offset: nat, n: nat)
    requires Timeline(sent, total, w.mem) && offset + n <= total && AllVisible(w.mem, t, offset, n)
    ensures FlagSum(w, t, offset, n) == n
  {
    if n > 0 {
      FlagSumFull(w, sent, total, t, offset, n - 1);
      assert Visible(w.mem, t, offset + n - 1);
      assert Visible(w.mem, t + n - 1, offset + n - 1);
    }
  }

  /** A batch that is looked at once all blocks are visible passes. */
  lemma {:induction false} LateLookPasses(w: World, o: Order, sent: seq<Block>, processed: nat, t: nat, shown: nat)
    requires o.Valid() && HasRoom(o) && processed < o.total && Timeline(sent, o.total, w.mem)
    requires 0 < o.Batch(processed) < U16 && processed + o.Batch(processed) <= o.total
    requires shown <= t && AllVisible(w.mem, shown, 0, o.total)
    ensures BatchPasses(w, t, processed, o.Batch(processed), o.room)
  {
    var batch := o.Batch(processed);
    VisibleLater(sent, o.total, w.mem, shown, t, 0, o.total);
    FlagSumFull(w, sent, o.total, t, processed, batch);
  }

  /** Every look that fails takes time, so once all blocks are visible by `t + patience`, the receive returns. */
  lemma {:induction false} DeliveryReturns(
    w: World, o: Order, sent: seq<Block>, processed: nat, t: nat, patience: nat, shown: nat)
    requires o.Valid() && HasRoom(o) && processed <= o.total && Timeline(sent, o.total, w.mem)
    requires Min(o.total, o.capacity) < U16 && shown <= t + patience && AllVisible(w.mem, shown, 0, o.total)
    ensures Delivery(w, o, processed, t, patience).Some?
    decreases o.total - processed, patience
  {
    if processed < o.total {
      HeldStep(o, processed);
      var batch := o.Batch(processed);
      if BatchPasses(w, t, processed, batch, o.room) {
        DeliveryReturns(w, o, sent, processed + batch, t + 2 * batch, patience, shown);
        DeliveryPasses(w, o, processed, t, patience);
      } else {
        if patience == 0 {
          LateLookPasses(w, o, sent, processed, t, shown);
        }
        DeliveryReturns(w, o, sent, processed, t + batch, patience - 1, shown);
      }
    }
  }

  /** A receive that returns has waited until all its blocks were visible. */
  lemma {:induction false} DeliveryWaits(
    w: World, o: Order, sent: seq<Block>, processed: nat, t: nat, patience: nat) returns (shown: nat)
    requires o.Valid() && processed <= o.total && Timeline(sent, o.total, w.mem) && ReadyBlocks(sent)
    requires Min(o.total, o.capacity) < U16 && Delivery(w, o, processed, t, patience).Some?
    ensures AllVisible(w.mem, shown, processed, o.total - processed)
    decreases o.total - processed, patience
  {
    shown := t;
    if processed < o.total {
      HeldStep(o, processed);
      var batch := o.Batch(processed);
      if BatchPasses(w, t, processed, batch, o.room) {
        shown := DeliveryWaits(w, o, sent, processed + batch, t + 2 * batch, patience);
        shown := ShownBoth(w, o, sent, processed, t, shown);
      } else {
        shown := DeliveryWaits(w, o, sent, processed, t + batch, patience - 1);
      }
    }
  }

  /** A batch that passed and the blocks behind it are visible together at the later of two times. */
  lemma {:induction false} ShownBoth(w: World, o: Order, sent: seq<Block>, processed: nat, t: nat, later: nat)
    returns (shown: nat)
    requires o.Valid() && processed < o.total && Timeline(sent, o.total, w.mem) && ReadyBlocks(sent)
    requires 0 < o.Batch(processed) < U16 && processed + o.Batch(processed) <= o.total
    requires BatchPasses(w, t, processed, o.Batch(processed), o.room)
    requires AllVisible(w.mem, later, processed + o.Batch(processed), o.total - processed - o.Batch(processed))
    ensures AllVisible(w.mem, shown, processed, o.total - processed)
  {
    var batch := o.Batch(processed);
    PassedVisible(w, sent, o.total, t, processed, batch, o.room);
    shown := if later < t + batch then t + batch else later;
    VisibleLater(sent, o.total, w.mem, t + batch, shown, processed, batch);
    VisibleLater(sent, o.total, w.mem, later, shown, processed + batch, o.total - processed - batch);
  }

  /** All blocks of the transfer are visible at some time. */
  ghost predicate EventuallyShown(mem: nat -> seq<Block>, total: nat)
  {
    exists shown: nat :: AllVisible(mem, shown, 0, total)
  }

  /** With room for one block, a receive returns what was sent once all blocks are visible within its patience. */
  lemma {:induction false} ReceiveReturns(
    w: World, n: u64, sent: seq<Block>, scratchBytes: u32, patience: nat, shown: nat)
    requires Timeline(sent, BlockCount(n), w.mem) && ReadyBlocks(sent) && RecvBatch(n, scratchBytes) < U16
    requires RecvCapacity(scratchBytes) > 0 && shown <= patience && AllVisible(w.mem, shown, 0, BlockCount(n))
    ensures Receive(w, n, scratchBytes, patience) == Some(SentBytes(sent, 0, HeldBytes(n)))
  {
    if n > 0 {
      RecvHasRoom(n, scratchBytes);
      DeliveryReturns(w, RecvOrder(n, scratchBytes), sent, 0, 0, patience, shown);
    }
    ReceivedAsSent(w, n, sent, scratchBytes, patience);
  }

  /**
   With a first batch of fewer than 2^16 blocks, a receive returns sooner or later if
   and only if there is nothing to receive, or the scratch buffer has room for a block
   and all blocks become visible.
   */
  lemma {:induction false} ReceiveReturnsIff(w: World, n: u64, sent: seq<Block>, scratchBytes: u32)
    requires Timeline(sent, BlockCount(n), w.mem) && ReadyBlocks(sent) && RecvBatch(n, scratchBytes) < U16
    ensures (exists patience: nat :: Receive(w, n, scratchBytes, patience).Some?) <==>
      n == 0 || (RecvCapacity(scratchBytes) > 0 && EventuallyShown(w.mem, BlockCount(n)))
  {
    if n == 0 {
      assert Receive(w, n, scratchBytes, 0).Some?;
    } else {
      if patience: nat :| Receive(w, n, scratchBytes, patience).Some? {
        var shown := DeliveryWaits(w, RecvOrder(n, scratchBytes), sent, 0, 0, patience);
      }
      if RecvCapacity(scratchBytes) > 0 && EventuallyShown(w.mem, BlockCount(n)) {
        var shown: nat :| AllVisible(w.mem, shown, 0, BlockCount(n));
        ReceiveReturns(w, n, sent, scratchBytes, shown, shown);
        assert Receive(w, n, scratchBytes, shown).Some?;
      }
    }
  }

  /** A whole transfer through small enough batches arrives once all blocks are visible. */
  lemma {:induction false} TransferCompletes(
    source: seq<byte>, scratch: seq<Block>, w: World, recvScratch: u32, patience: nat, shown: nat)
    requires |source| < WORD64 && ReadyBlocks(scratch) && |scratch| > 0 && LargestWhole(|source|, |scratch|) < U16
    requires Timeline(SentBlocks(source, scratch), BlockCount(|source|), w.mem)
    requires RecvBatch(|source|, recvScratch) < U16 && RecvCapacity(recvScratch) > 0
    requires shown <= patience && AllVisible(w.mem, shown, 0, BlockCount(|source|))
    ensures Receive(w, |source|, recvScratch, patience) == Some(source[..HeldBytes(|source|)])
  {
    var sent := SentBlocks(source, scratch);
    ReceiveReturns(w, |source|, sent, recvScratch, patience, shown);
    TransferDelivers(source, scratch, w, recvScratch, patience);
  }
}
