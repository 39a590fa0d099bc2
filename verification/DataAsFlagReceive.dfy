/**
 The receiver of a data-as-flag transfer. It polls the flags of a batch of blocks by
 adding them up and copies the payload once the sum equals the batch size.

 The sender runs beside it: memory is a function of time, and every access of the
 receiver happens at its own time. What the receiver's scratch buffer held before is
 arbitrary too; it shows where a 16-bit block count cuts a copy short.
 */
module DataAsFlagReceive {
  import opened DataAsFlagSizes
  import opened DataAsFlag
  import opened Wrappers

  /** Old scratch contents: the sum of old flags and the old bytes that a copy at some time leaves in place. */
  datatype Stale = Stale(flags: (nat, nat, nat) -> int, bytes: (nat, nat) -> byte)

  datatype World = World(mem: nat -> seq<Block>, stale: Stale)

  /** Memory at time `t` holds `total` whole blocks; a block is either not visible or the one that was sent. */
  ghost predicate Snapshot(sent: seq<Block>, total: nat, mem: seq<Block>)
  {
    && |mem| == total
    && forall k :: 0 <= k < total ==>
      |mem[k].payload| == PAYLOAD_BYTES && (mem[k].flag == 0 || (k < |sent| && mem[k] == sent[k]))
  }

  /** Sent blocks become visible in any order and at any time, as a whole, and stay visible; flags start clear. */
  ghost predicate Timeline(sent: seq<Block>, total: nat, mem: nat -> seq<Block>)
  {
    && (forall t :: Snapshot(sent, total, mem(t)))
    && (forall t, u, k :: t <= u && 0 <= k < total && Visible(mem, t, k) ==> Visible(mem, u, k))
  }

  predicate Visible(mem: nat -> seq<Block>, t: nat, k: nat)
  {
    k < |mem(t)| && mem(t)[k].flag == READY
  }

  function FlagAt(w: World, t: nat, k: nat): int
  {
    if k < |w.mem(t)| then w.mem(t)[k].flag else 0
  }

  function ByteAt(w: World, t: nat, k: nat, i: nat): byte
  {
    if k < |w.mem(t)| && i < |w.mem(t)[k].payload| then w.mem(t)[k].payload[i] else 0
  }

  // Checking and copying a batch

  /** The flags of `n` blocks, read one after the other from time `t` on. */
  function FlagSum(w: World, t: nat, offset: nat, n: nat): int
  {
    if n == 0 then 0 else FlagSum(w, t, offset, n - 1) + FlagAt(w, t + n - 1, offset + n - 1)
  }

  /**
   `DataAsFlagCheckBatch`: the scratch buffer has room for the batch, and the flags of
   the counted blocks and whatever lies behind them add up to its size.
   */
  predicate BatchPasses(w: World, t: nat, offset: nat, batch: nat, room: nat -> bool)
  {
    && room(batch)
    && FlagSum(w, t, offset, batch % U16) + (if batch < U16 then 0 else w.stale.flags(t, offset, batch)) == READY * batch
  }

  /** `DataAsFlagCopyBatchToRecvGM`: byte `i` of a batch copied at time `t`. */
  function CopiedByte(w: World, t: nat, offset: nat, batchBytes: nat, i: nat): byte
  {
    var full := batchBytes / PAYLOAD_BYTES;
    if i < full % U16 * PAYLOAD_BYTES || i >= full * PAYLOAD_BYTES
    then ByteAt(w, t + i / PAYLOAD_BYTES, offset + i / PAYLOAD_BYTES, i % PAYLOAD_BYTES)
    else w.stale.bytes(t, i)
  }

  function CopiedBatch(w: World, t: nat, offset: nat, batchBytes: nat): (bytes: seq<byte>)
    ensures |bytes| == batchBytes
    ensures forall i :: 0 <= i < batchBytes ==> bytes[i] == CopiedByte(w, t, offset, batchBytes, i)
  {
    seq(batchBytes, i requires 0 <= i < batchBytes => CopiedByte(w, t, offset, batchBytes, i))
  }

  // The receive loop

  /** What a receive is asked for: bytes, blocks, batch capacity, and for which batches the scratch buffer has room. */
  datatype Order = Order(n: nat, total: nat, capacity: nat, room: nat -> bool)
  {
    predicate Valid()
    {
      capacity > 0 && Covers(n, total)
    }

    function Batch(processed: nat): int
    {
      BatchBlocks(total, capacity, processed)
    }

    function Bytes(processed: nat): int
      requires Valid() && processed < total
    {
      BatchBytes(n, processed, Batch(processed))
    }

    /** Bytes that the counted blocks hold. */
    function Held(): int
    {
      Min(n, total * PAYLOAD_BYTES)
    }
  }

  /**
   The bytes received from block `processed` on, starting at time `t`; `None` while
   a batch has not passed within `patience` further looks.
   */
  function Delivery(w: World, o: Order, processed: nat, t: nat, patience: nat): Option<seq<byte>>
    requires o.Valid()
    decreases o.total - processed, patience
  {
    if processed >= o.total then Some([])
    else
      BatchInside(o.n, o.total, o.capacity, processed);
      var batch := o.Batch(processed);
      if !BatchPasses(w, t, processed, batch, o.room) then
        if patience == 0 then None else Delivery(w, o, processed, t + batch, patience - 1)
      else
        Joined(CopiedBatch(w, t + batch, processed, o.Bytes(processed)),
               Delivery(w, o, processed + batch, t + 2 * batch, patience))
  }

  /** Bytes received so far, followed by those still to come. */
  function Joined(before: seq<byte>, rest: Option<seq<byte>>): Option<seq<byte>>
  {
    if rest.None? then None else Some(before + rest.value)
  }

  /** The order that `DataAsFlagCheckAndRecv` works on, for `n` bytes and a scratch size. */
  function RecvOrder(n: u64, scratchBytes: u32): (o: Order)
    ensures o.capacity > 0 ==> o.Valid()
  {
    CountCovers(n);
    Order(n, BlockCount(n), RecvCapacity(scratchBytes), Room(scratchBytes))
  }

  /** The batches for which the scratch buffer can be split. */
  function Room(scratchBytes: u32): nat -> bool
  {
    (batch: nat) => batch < WORD32 && SplitFits(scratchBytes, batch)
  }

  /** A whole receive: nothing to do for no bytes, refused without room for one block. */
  function Receive(w: World, n: u64, scratchBytes: u32, patience: nat): Option<seq<byte>>
  {
    if n == 0 then Some([])
    else if RecvCapacity(scratchBytes) == 0 then None
    else Delivery(w, RecvOrder(n, scratchBytes), 0, 0, patience)
  }

  /** One look at the flags of a batch. */
  method CheckBatch(w: World, t: nat, offset: nat, batch: nat, room: nat -> bool) returns (ready: bool)
    ensures ready == BatchPasses(w, t, offset, batch, room)
  {
    if !room(batch) {
      return false;
    }
    var sum := 0;
    var counted := batch % U16;
    for i := 0 to counted
      invariant sum == FlagSum(w, t, offset, i)
    {
      sum := sum + FlagAt(w, t + i, offset + i);
    }
    if batch >= U16 {
      sum := sum + w.stale.flags(t, offset, batch);
    }
    ready := sum == READY * batch;
  }

  /**
   `DataAsFlagCheckAndRecv`. `patience` bounds the polling, which the original does
   not; a receive that has not returned yet shows as `None`.
   */
  method CheckAndRecv(w: World, n: u64, scratchBytes: u32, patience: nat) returns (r: Option<seq<byte>>)
    ensures r == Receive(w, n, scratchBytes, patience)
  {
    if n == 0 {
      return Some([]);
    }
    var capacity := MaxRecvBlocks(scratchBytes);
    if capacity == 0 {
      return None;
    }
    r := ReceiveBatches(w, RecvOrder(n, scratchBytes), patience);
  }

  /** One batch of the loop: wait, or copy and go on. */
  lemma {:induction false} DeliveryStep(w: World, o: Order, processed: nat, t: nat, left: nat, recv: seq<byte>)
    requires o.Valid() && processed < o.total
    ensures var batch := o.Batch(processed);
      && 0 < batch && processed + batch <= o.total && 0 <= o.Bytes(processed)
      && Joined(recv, Delivery(w, o, processed, t, left)) ==
        if BatchPasses(w, t, processed, batch, o.room) then
          Joined(recv + CopiedBatch(w, t + batch, processed, o.Bytes(processed)),
                 Delivery(w, o, processed + batch, t + 2 * batch, left))
        else if left == 0 then None
        else Joined(recv, Delivery(w, o, processed, t + batch, left - 1))
  {
    BatchInside(o.n, o.total, o.capacity, processed);
    var batch := o.Batch(processed);
    var bytes := CopiedBatch(w, t + batch, processed, o.Bytes(processed));
    var rest := Delivery(w, o, processed + batch, t + 2 * batch, left);
    if rest.Some? {
      assert recv + (bytes + rest.value) == recv + bytes + rest.value;
    }
  }

  /** The loop over batches. */
  method ReceiveBatches(w: World, o: Order, patience: nat) returns (r: Option<seq<byte>>)
    requires o.Valid()
    ensures r == Delivery(w, o, 0, 0, patience)
  {
    var processed: nat, t: nat, left: nat, recv: seq<byte> := 0, 0, patience, [];
    ghost var all := Delivery(w, o, 0, 0, patience);
    assert Joined([], all) == all by {
      if all.Some? {
        assert [] + all.value == all.value;
      }
    }
    while processed < o.total
      invariant processed <= o.total && Joined(recv, Delivery(w, o, processed, t, left)) == all
      decreases o.total - processed, left
    {
      DeliveryStep(w, o, processed, t, left, recv);
      var batch := Min(o.total - processed, o.capacity);
      var ready := CheckBatch(w, t, processed, batch, o.room);
      if ready {
        var batchBytes := Min(o.n - processed * PAYLOAD_BYTES, batch * PAYLOAD_BYTES);
        recv := recv + CopiedBatch(w, t + batch, processed, batchBytes);
        processed, t := processed + batch, t + 2 * batch;
      } else {
        if left == 0 {
          return None;
        }
        t, left := t + batch, left - 1;
      }
    }
    assert recv + [] == recv;
    return Some(recv);
  }

  // A single look at all flags

  /** Batches from block `checked` on pass; the flag of block `k` is read at time `k`. */
  predicate AllPass(w: World, total: nat, capacity: nat, room: nat -> bool, checked: nat)
    requires capacity > 0
    decreases total - checked
  {
    checked >= total ||
    var batch := BatchBlocks(total, capacity, checked);
    BatchPasses(w, checked, checked, batch, room) && AllPass(w, total, capacity, room, checked + batch)
  }

  /** The answer of `DataAsFlagCheck`. */
  predicate CheckAnswer(w: World, n: u64, scratchBytes: u32)
  {
    n == 0 ||
    (CheckCapacity(scratchBytes) > 0 &&
     AllPass(w, BlockCount(n), CheckCapacity(scratchBytes), Room(scratchBytes), 0))
  }

  /** `DataAsFlagCheck`: one look at the flags of all blocks, batch by batch. */
  method Check(w: World, n: u64, scratchBytes: u32) returns (ready: bool)
    ensures ready == CheckAnswer(w, n, scratchBytes)
  {
    if n == 0 {
      return true;
    }
    var capacity := MaxCheckBlocks(scratchBytes);
    if capacity == 0 {
      return false;
    }
    ready := CheckBatches(w, BlockCount(n), capacity, Room(scratchBytes));
  }

  lemma {:induction false} AllPassStep(w: World, total: nat, capacity: nat, room: nat -> bool, checked: nat)
    requires capacity > 0 && checked < total
    ensures var batch := BatchBlocks(total, capacity, checked);
      && 0 < batch && checked + batch <= total
      && AllPass(w, total, capacity, room, checked) ==
        (BatchPasses(w, checked, checked, batch, room) && AllPass(w, total, capacity, room, checked + batch))
  {
  }

  /** The loop over batches. */
  method CheckBatches(w: World, total: nat, capacity: nat, room: nat -> bool) returns (ready: bool)
    requires capacity > 0
    ensures ready == AllPass(w, total, capacity, room, 0)
  {
    var checked: nat := 0;
    while checked < total
      invariant checked <= total && AllPass(w, total, capacity, room, checked) == AllPass(w, total, capacity, room, 0)
    {
      AllPassStep(w, total, capacity, room, checked);
      var batch := Min(total - checked, capacity);
      var passed := CheckBatch(w, checked, checked, batch, room);
      if !passed {
        return false;
      }
      checked := checked + batch;
    }
    return true;
  }

  // When receiving is right

  /** Blocks `from` up to `from + n` are visible at time `t`. */
  ghost predicate AllVisible(mem: nat -> seq<Block>, t: nat, from: nat, n: nat)
  {
    forall k: nat :: from <= k < from + n ==> Visible(mem, t, k)
  }

  lemma {:induction false} VisibleLater(
    sent: seq<Block>, total: nat, mem: nat -> seq<Block>, t: nat, u: nat, from: nat, n: nat)
    requires Timeline(sent, total, mem) && t <= u && from + n <= total && AllVisible(mem, t, from, n)
    ensures AllVisible(mem, u, from, n)
  {
    forall k: nat | from <= k < from + n
      ensures Visible(mem, u, k)
    {
      assert Visible(mem, t, k);
    }
  }

  /** Flags are 0 or 1, so their sum equals their number only if all of them are set. */
  lemma {:induction false} FlagSumMeans(w: World, sent: seq<Block>, total: nat, t: nat, offset: nat, n: nat)
    requires Timeline(sent, total, w.mem) && ReadyBlocks(sent) && offset + n <= total
    ensures 0 <= FlagSum(w, t, offset, n) <= n
    ensures FlagSum(w, t, offset, n) == n ==> AllVisible(w.mem, t + n, offset, n)
  {
    if n > 0 {
      var u := t + n - 1;
      FlagSumMeans(w, sent, total, t, offset, n - 1);
      assert Snapshot(sent, total, w.mem(u));
      if FlagSum(w, t, offset, n) == n {
        assert Visible(w.mem, u, offset + n - 1);
        assert AllVisible(w.mem, u, offset, n);
        VisibleLater(sent, total, w.mem, u, t + n, offset, n);
      }
    }
  }

  /** Byte `i` of what the sent blocks carry. */
  function SentByte(sent: seq<Block>, i: nat): byte
  {
    if i / PAYLOAD_BYTES < |sent| && i % PAYLOAD_BYTES < |sent[i / PAYLOAD_BYTES].payload|
    then sent[i / PAYLOAD_BYTES].payload[i % PAYLOAD_BYTES] else 0
  }

  /** Bytes `from` up to `to` of what the sent blocks carry. */
  function SentBytes(sent: seq<Block>, from: nat, to: int): (bytes: seq<byte>)
    ensures |bytes| == if from < to then to - from else 0
    ensures forall i :: 0 <= i < |bytes| ==> bytes[i] == SentByte(sent, from + i)
  {
    if from < to then seq<byte>(to - from, i requires 0 <= i < to - from => SentByte(sent, from + i)) else []
  }

  /** Once its block is visible, a byte is read as it was sent. */
  lemma {:induction false} VisibleByte(
    w: World, sent: seq<Block>, total: nat, t: nat, offset: nat, batch: nat, batchBytes: nat, i: nat)
    requires Timeline(sent, total, w.mem) && ReadyBlocks(sent) && offset + batch <= total && batch < U16
    requires AllVisible(w.mem, t, offset, batch) && i < batchBytes <= batch * PAYLOAD_BYTES
    ensures CopiedByte(w, t, offset, batchBytes, i) == SentByte(sent, offset * PAYLOAD_BYTES + i)
  {
    var b := i / PAYLOAD_BYTES;
    assert batchBytes / PAYLOAD_BYTES % U16 == batchBytes / PAYLOAD_BYTES;
    assert b < batch;
    assert Visible(w.mem, t, offset + b);
    assert Visible(w.mem, t + b, offset + b);
    assert Snapshot(sent, total, w.mem(t + b));
    assert (offset * PAYLOAD_BYTES + i) / PAYLOAD_BYTES == offset + b;
    assert (offset * PAYLOAD_BYTES + i) % PAYLOAD_BYTES == i % PAYLOAD_BYTES;
  }

  /** A batch of fewer than 2^16 blocks that passes is visible. */
  lemma {:induction false} PassedVisible(
    w: World, sent: seq<Block>, total: nat, t: nat, offset: nat, batch: nat, room: nat -> bool)
    requires Timeline(sent, total, w.mem) && ReadyBlocks(sent) && offset + batch <= total && batch < U16
    requires BatchPasses(w, t, offset, batch, room)
    ensures AllVisible(w.mem, t + batch, offset, batch)
  {
    FlagSumMeans(w, sent, total, t, offset, batch);
  }

  /** A batch of fewer than 2^16 blocks that passes is copied as it was sent. */
  lemma {:induction false} PassedBatch(w: World, o: Order, sent: seq<Block>, processed: nat, t: nat)
    requires o.Valid() && processed < o.total && Timeline(sent, o.total, w.mem) && ReadyBlocks(sent)
    requires o.Batch(processed) < U16 && BatchPasses(w, t, processed, o.Batch(processed), o.room)
    ensures var batch, bytes := o.Batch(processed), o.Bytes(processed);
      && 0 < batch && 0 <= bytes && AllVisible(w.mem, t + batch, processed, batch)
      && CopiedBatch(w, t + batch, processed, bytes) ==
        SentBytes(sent, processed * PAYLOAD_BYTES, processed * PAYLOAD_BYTES + bytes)
  {
    BatchInside(o.n, o.total, o.capacity, processed);
    var batch, bytes := o.Batch(processed), o.Bytes(processed);
    PassedVisible(w, sent, o.total, t, processed, batch, o.room);
    CopiedAsSent(w, sent, o.total, t + batch, processed, batch, bytes);
  }

  lemma {:induction false} CopiedAsSent(
    w: World, sent: seq<Block>, total: nat, t: nat, offset: nat, batch: nat, batchBytes: nat)
    requires Timeline(sent, total, w.mem) && ReadyBlocks(sent) && offset + batch <= total && batch < U16
    requires AllVisible(w.mem, t, offset, batch) && batchBytes <= batch * PAYLOAD_BYTES
    ensures CopiedBatch(w, t, offset, batchBytes) ==
      SentBytes(sent, offset * PAYLOAD_BYTES, offset * PAYLOAD_BYTES + batchBytes)
  {
    var copied := CopiedBatch(w, t, offset, batchBytes);
    forall i | 0 <= i < batchBytes
      ensures copied[i] == SentByte(sent, offset * PAYLOAD_BYTES + i)
    {
      VisibleByte(w, sent, total, t, offset, batch, batchBytes, i);
    }
  }

  /** With batches of fewer than 2^16 blocks, a receive that returns has read the blocks as they were sent. */
  lemma {:induction false} DeliveredAsSent(
    w: World, o: Order, sent: seq<Block>, processed: nat, t: nat, patience: nat)
    requires o.Valid() && processed <= o.total && Timeline(sent, o.total, w.mem) && ReadyBlocks(sent)
    requires Min(o.total, o.capacity) < U16 && Delivery(w, o, processed, t, patience).Some?
    ensures Delivery(w, o, processed, t, patience).value == SentBytes(sent, processed * PAYLOAD_BYTES, o.Held())
    decreases o.total - processed, patience
  {
    if processed == o.total {
      assert o.Held() <= processed * PAYLOAD_BYTES;
    } else {
      HeldStep(o, processed);
      var batch := o.Batch(processed);
      if BatchPasses(w, t, processed, batch, o.room) {
        DeliveredAsSent(w, o, sent, processed + batch, t + 2 * batch, patience);
        DeliveredBatch(w, o, sent, processed, t, patience);
      } else {
        DeliveredAsSent(w, o, sent, processed, t + batch, patience - 1);
      }
    }
  }

  lemma {:induction false} DeliveredBatch(
    w: World, o: Order, sent: seq<Block>, processed: nat, t: nat, patience: nat)
    requires o.Valid() && processed < o.total && Timeline(sent, o.total, w.mem) && ReadyBlocks(sent)
    requires 0 < o.Batch(processed) < U16 && BatchPasses(w, t, processed, o.Batch(processed), o.room)
    requires Delivery(w, o, processed + o.Batch(processed), t + 2 * o.Batch(processed), patience) ==
      Some(SentBytes(sent, (processed + o.Batch(processed)) * PAYLOAD_BYTES, o.Held()))
    ensures Delivery(w, o, processed, t, patience) == Some(SentBytes(sent, processed * PAYLOAD_BYTES, o.Held()))
  {
    DeliveryPasses(w, o, processed, t, patience);
    PassedBatch(w, o, sent, processed, t);
    BatchJoins(o, sent, processed);
  }

  /** A batch that passes is copied and followed by the rest. */
  lemma {:induction false} DeliveryPasses(w: World, o: Order, processed: nat, t: nat, patience: nat)
    requires o.Valid() && processed < o.total && 0 < o.Batch(processed)
    requires BatchPasses(w, t, processed, o.Batch(processed), o.room)
    ensures 0 <= o.Bytes(processed)
    ensures Delivery(w, o, processed, t, patience) ==
      Joined(CopiedBatch(w, t + o.Batch(processed), processed, o.Bytes(processed)),
             Delivery(w, o, processed + o.Batch(processed), t + 2 * o.Batch(processed), patience))
  {
    BatchInside(o.n, o.total, o.capacity, processed);
  }

  /** The bytes of a batch and of all later ones are the bytes from the batch on. */
  lemma {:induction false} BatchJoins(o: Order, sent: seq<Block>, processed: nat)
    requires o.Valid() && processed < o.total && 0 < o.Batch(processed) && 0 <= o.Bytes(processed)
    ensures Joined(SentBytes(sent, processed * PAYLOAD_BYTES, processed * PAYLOAD_BYTES + o.Bytes(processed)),
                   Some(SentBytes(sent, (processed + o.Batch(processed)) * PAYLOAD_BYTES, o.Held()))) ==
      Some(SentBytes(sent, processed * PAYLOAD_BYTES, o.Held()))
  {
    HeldStep(o, processed);
    SentBytesJoin(sent, processed, o.Batch(processed), o.Bytes(processed), o.Held());
  }

  /** A batch ends inside the held bytes: after its last block, or with the data. */
  lemma {:induction false} HeldStep(o: Order, processed: nat)
    requires o.Valid() && processed < o.total
    ensures var batch, bytes := o.Batch(processed), o.Bytes(processed);
      && 0 < batch <= Min(o.total, o.capacity) && processed + batch <= o.total && 0 <= bytes <= batch * PAYLOAD_BYTES
      && processed * PAYLOAD_BYTES + bytes <= o.Held()
      && (bytes == batch * PAYLOAD_BYTES || processed * PAYLOAD_BYTES + bytes == o.Held())
  {
    BatchInside(o.n, o.total, o.capacity, processed);
  }

  lemma {:induction false} SentBytesJoin(sent: seq<Block>, processed: nat, batch: nat, bytes: nat, to: int)
    requires bytes == batch * PAYLOAD_BYTES || processed * PAYLOAD_BYTES + bytes == to
    requires processed * PAYLOAD_BYTES + bytes <= to && bytes <= batch * PAYLOAD_BYTES
    ensures SentBytes(sent, processed * PAYLOAD_BYTES, processed * PAYLOAD_BYTES + bytes) +
      SentBytes(sent, (processed + batch) * PAYLOAD_BYTES, to) == SentBytes(sent, processed * PAYLOAD_BYTES, to)
  {
  }

  /** Blocks that carry the source hold its bytes. */
  lemma {:induction false} CarriedBytes(source: seq<byte>, sent: seq<Block>, to: nat)
    requires AllCarry(source, sent) && to <= |source| && to <= |sent| * PAYLOAD_BYTES
    ensures SentBytes(sent, 0, to) == source[..to]
  {
    forall i | 0 <= i < to
      ensures SentByte(sent, i) == source[i]
    {
      var k := i / PAYLOAD_BYTES;
      assert Carries(sent[k], source, k);
      assert Chunk(source, k)[i % PAYLOAD_BYTES] == source[i];
    }
  }

  /** With batches of fewer than 2^16 blocks, a check that says yes has seen all flags set. */
  lemma {:induction false} AllPassMeans(
    w: World, sent: seq<Block>, total: nat, capacity: nat, room: nat -> bool, checked: nat)
    requires capacity > 0 && Min(total, capacity) < U16 && checked <= total
    requires Timeline(sent, total, w.mem) && ReadyBlocks(sent) && AllPass(w, total, capacity, room, checked)
    ensures AllVisible(w.mem, total, checked, total - checked)
    decreases total - checked
  {
    if checked < total {
      var batch := BatchBlocks(total, capacity, checked);
      PassedVisible(w, sent, total, checked, checked, batch, room);
      VisibleLater(sent, total, w.mem, checked + batch, total, checked, batch);
      AllPassMeans(w, sent, total, capacity, room, checked + batch);
    }
  }
}
