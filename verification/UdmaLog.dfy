/**
 The unbounded view of a UDMA queue pair. The log lists every work queue entry
 (WQE) ever posted; an entry occupies one or two basic blocks of the send ring.
 The functions here say what the wrapping rings hold for a given log, and the
 lemmas what each step of producer, hardware and consumer keeps.
 */
module UdmaLog {
  import opened Wrappers

  const SQ_BB_COUNT := 16384
  const CQ_DEPTH := 16384
  const WORD := 0x1_0000_0000

  newtype byte = x: int | 0 <= x < 0x100
  newtype u16 = x: int | 0 <= x < 0x1_0000

  /** 32-bit counters, kept as numbers below 2^32. */
  type u32 = x: int | 0 <= x < 0x1_0000_0000

  function Sub32(a: u32, b: u32): u32
  {
    (a - b) % WORD
  }

  function Add32(a: u32, b: u32): u32
  {
    (a + b) % WORD
  }

  datatype Opcode = Write | WriteWithNotify | Read

  function BbCount(op: Opcode): (n: nat)
    ensures 1 <= n <= 2
  {
    if op == WriteWithNotify then 2 else 1
  }

  /** A work queue entry as it is written to the ring; `bbIdx` and `owner` describe its place. */
  datatype Wqe = Wqe(
    opcode: Opcode, flag: nat, bbIdx: nat, owner: bool, remoteAddr: nat, localAddr: nat, len: nat,
    notify: Option<(nat, nat)>)

  /** A basic block of the send ring: block `index` of an entry. */
  datatype Block = Blank | Part(wqe: Wqe, index: nat)

  datatype Cqe = Cqe(owner: bool, status: byte, substatus: byte, entryIdx: u16)

  /** How an entry ended: the two status bytes of its completion. */
  datatype Outcome = Outcome(status: byte, substatus: byte)
  {
    predicate Succeeded()
    {
      status == 0 && substatus == 0
    }
  }

  function OutcomeOf(c: Cqe): Outcome
  {
    Outcome(c.status, c.substatus)
  }

  function Parts(wqe: Wqe): (blocks: seq<Block>)
    ensures |blocks| == BbCount(wqe.opcode)
    ensures forall k :: 0 <= k < |blocks| ==> blocks[k] == Part(wqe, k)
  {
    if wqe.opcode == WriteWithNotify then [Part(wqe, 0), Part(wqe, 1)] else [Part(wqe, 0)]
  }

  /** Basic blocks of the first `n` entries: where entry `n` starts. */
  function Blocks(log: seq<Wqe>, n: nat): nat
    requires n <= |log|
  {
    if n == 0 then 0 else Blocks(log, n - 1) + BbCount(log[n - 1].opcode)
  }

  lemma {:induction false} BlocksGrow(log: seq<Wqe>, m: nat, n: nat)
    requires m <= n <= |log|
    ensures n - m <= Blocks(log, n) - Blocks(log, m) <= 2 * (n - m)
  {
    if m < n {
      BlocksGrow(log, m, n - 1);
    }
  }

  lemma {:induction false} BlocksPrefix(log: seq<Wqe>, more: seq<Wqe>, n: nat)
    requires n <= |log| && log <= more
    ensures Blocks(more, n) == Blocks(log, n)
  {
    if n > 0 {
      BlocksPrefix(log, more, n - 1);
    }
  }

  // Wrapped counters

  /** Distances up to 2^32 survive the wrap of the counters. */
  lemma {:induction false} WrappedDistance(a: nat, b: nat)
    requires b <= a < b + WORD
    ensures Sub32(a % WORD, b % WORD) == a - b
  {
  }

  lemma {:induction false} WrappedEqual(a: nat, b: nat)
    requires b <= a < b + WORD
    ensures a % WORD == b % WORD <==> a == b
  {
  }

  /** The wrapped target is the wrap of the unbounded one. */
  lemma {:induction false} WrappedTarget(b: nat, target: u32)
    ensures (b + Sub32(target, b % WORD)) % WORD == target
  {
  }

  lemma {:induction false} WrappedAdd(a: nat, b: u32)
    ensures Add32(a % WORD, b) == (a + b) % WORD
  {
  }

  lemma {:induction false} AddSub(a: u32, b: u32)
    ensures Add32(a, Sub32(b, a)) == b && Add32(a, 0) == a
  {
  }

  lemma {:induction false} AddAdd(a: u32, b: nat)
    requires b + 1 < WORD
    ensures Add32(Add32(a, b), 1) == Add32(a, b + 1)
  {
  }

  /** Wrapped distances add up as long as they do not reach round. */
  lemma {:induction false} SubSplit(a: u32, b: u32, c: u32)
    requires Sub32(a, b) + Sub32(b, c) < WORD
    ensures Sub32(a, c) == Sub32(a, b) + Sub32(b, c)
  {
  }

  /** Frontier `frontier` is the wrap of a position between tail and head. */
  ghost predicate Between(posted: nat, freed: nat, frontier: u32)
  {
    exists f: nat :: freed <= f <= posted && f % WORD == frontier
  }

  predicate InRange(head: u32, tail: u32, frontier: u32)
  {
    Sub32(head, tail) <= SQ_BB_COUNT && Sub32(frontier, tail) <= SQ_BB_COUNT && Sub32(head, frontier) <= SQ_BB_COUNT
  }

  /** The three modular range checks accept exactly the frontiers between tail and head. */
  lemma {:induction false} FrontierBetween(posted: nat, freed: nat, frontier: u32)
    requires freed <= posted <= freed + SQ_BB_COUNT
    ensures InRange(posted % WORD, freed % WORD, frontier) <==> Between(posted, freed, frontier)
  {
    if InRange(posted % WORD, freed % WORD, frontier) {
      InRangeBetween(posted, freed, frontier);
    }
    if f: nat :| freed <= f <= posted && f % WORD == frontier {
      WrappedDistance(posted, freed);
      WrappedDistance(f, freed);
      WrappedDistance(posted, f);
    }
  }

  lemma {:induction false} InRangeBetween(posted: nat, freed: nat, frontier: u32)
    requires freed <= posted <= freed + SQ_BB_COUNT && InRange(posted % WORD, freed % WORD, frontier)
    ensures Between(posted, freed, frontier)
  {
    WrappedDistance(posted, freed);
    SubSplit(posted % WORD, frontier, freed % WORD);
    WrappedTarget(freed, frontier);
  }

  /** Wrapping a counter keeps its place in a ring, and the parity of its lap. */
  lemma {:induction false} WrappedPlace(a: nat)
    ensures (a % WORD) % SQ_BB_COUNT == a % SQ_BB_COUNT
    ensures (a % WORD) / SQ_BB_COUNT % 2 == a / SQ_BB_COUNT % 2
  {
    var l := WrappedLap(a);
    LapAndPlace(l, a % SQ_BB_COUNT);
  }

  lemma {:induction false} WrappedLap(a: nat) returns (l: nat)
    ensures a % WORD == SQ_BB_COUNT * l + a % SQ_BB_COUNT
    ensures l % 2 == a / SQ_BB_COUNT % 2
  {
    var lap, place := a / SQ_BB_COUNT, a % SQ_BB_COUNT;
    var turns := lap / 0x4_0000;
    l := lap % 0x4_0000;
    assert a == WORD * turns + (SQ_BB_COUNT * l + place);
    WrapOf(a, turns, SQ_BB_COUNT * l + place);
    assert lap == 0x4_0000 * turns + l;
  }

  lemma {:induction false} WrapOf(a: nat, turns: nat, r: nat)
    requires a == WORD * turns + r && r < WORD
    ensures a % WORD == r
  {
  }

  lemma {:induction false} LapAndPlace(lap: nat, place: nat)
    requires place < SQ_BB_COUNT
    ensures (SQ_BB_COUNT * lap + place) % SQ_BB_COUNT == place && (SQ_BB_COUNT * lap + place) / SQ_BB_COUNT == lap
  {
  }

  lemma {:induction false} RingDistance(start: nat, count: nat)
    requires 1 <= count <= SQ_BB_COUNT
    ensures ((start + count - 1) % SQ_BB_COUNT + SQ_BB_COUNT - start % SQ_BB_COUNT) % SQ_BB_COUNT + 1 == count
  {
    var place := start % SQ_BB_COUNT;
    if place + count - 1 < SQ_BB_COUNT {
      assert (start + count - 1) % SQ_BB_COUNT == place + count - 1;
    } else {
      assert (start + count - 1) % SQ_BB_COUNT == place + count - 1 - SQ_BB_COUNT;
    }
  }

  /** Positions less than one lap apart have different places. */
  lemma {:induction false} PlacesDiffer(a: nat, b: nat)
    requires a < b < a + SQ_BB_COUNT
    ensures a % SQ_BB_COUNT != b % SQ_BB_COUNT
  {
  }

  /** Between two entries less than 2^32 blocks apart, wrapped positions tell how many blocks lie ahead. */
  lemma {:induction false} BlocksAhead(log: seq<Wqe>, m: nat, n: nat)
    requires m <= n <= |log| && Blocks(log, n) < Blocks(log, m) + WORD
    ensures Blocks(log, m) <= Blocks(log, n)
    ensures Sub32(Blocks(log, n) % WORD, Blocks(log, m) % WORD) == Blocks(log, n) - Blocks(log, m)
    ensures Blocks(log, m) % WORD != Blocks(log, n) % WORD <==> m < n
  {
    BlocksGrow(log, m, n);
    WrappedDistance(Blocks(log, n), Blocks(log, m));
    WrappedEqual(Blocks(log, n), Blocks(log, m));
  }

  // The send ring

  /** Block `k` of entry `n` is in its place. */
  ghost predicate Holds(log: seq<Wqe>, sq: seq<Block>, n: nat, k: nat)
    requires n < |log| && |sq| == SQ_BB_COUNT
  {
    sq[(Blocks(log, n) + k) % SQ_BB_COUNT] == Part(log[n], k)
  }

  /** All blocks of the entries from `from` on are in place. */
  ghost predicate SqHolds(log: seq<Wqe>, sq: seq<Block>, from: nat)
    requires |sq| == SQ_BB_COUNT
  {
    forall n, k :: from <= n < |log| && 0 <= k < BbCount(log[n].opcode) ==> Holds(log, sq, n, k)
  }

  /** Copy `blocks` into the ring from place `start`, in two pieces when they reach over its end. */
  function Publish(sq: seq<Block>, blocks: seq<Block>, start: nat): (r: seq<Block>)
    requires |sq| == SQ_BB_COUNT && start < SQ_BB_COUNT && |blocks| <= SQ_BB_COUNT
    ensures |r| == SQ_BB_COUNT
  {
    var first := if |blocks| < SQ_BB_COUNT - start then |blocks| else SQ_BB_COUNT - start;
    var copied := sq[..start] + blocks[..first] + sq[start + first..];
    if first != |blocks| then blocks[first..] + copied[|blocks| - first..] else copied
  }

  /** Published blocks land in consecutive places around the ring and nothing else changes. */
  lemma {:induction false} PublishPlaces(sq: seq<Block>, blocks: seq<Block>, position: nat, j: nat)
    requires |sq| == SQ_BB_COUNT && |blocks| <= SQ_BB_COUNT && j < SQ_BB_COUNT
    ensures var r := Publish(sq, blocks, position % SQ_BB_COUNT);
      && (j < |blocks| ==> r[(position + j) % SQ_BB_COUNT] == blocks[j])
      && (|blocks| <= j ==> r[(position + j) % SQ_BB_COUNT] == sq[(position + j) % SQ_BB_COUNT])
  {
    var start := position % SQ_BB_COUNT;
    assert (position + j) % SQ_BB_COUNT == if start + j < SQ_BB_COUNT then start + j else start + j - SQ_BB_COUNT;
  }

  /** Posting one entry overwrites no block of an entry that is not reclaimed. */
  lemma {:induction false} PostKeepsOld(log: seq<Wqe>, sq: seq<Block>, from: nat, wqe: Wqe, n: nat, k: nat)
    requires |sq| == SQ_BB_COUNT && from <= n < |log| && k < BbCount(log[n].opcode) && SqHolds(log, sq, from)
    requires Blocks(log, |log|) + BbCount(wqe.opcode) - Blocks(log, from) <= SQ_BB_COUNT
    ensures Holds(log + [wqe], Publish(sq, Parts(wqe), Blocks(log, |log|) % SQ_BB_COUNT), n, k)
  {
    var position := Blocks(log, n) + k;
    var head := Blocks(log, |log|);
    BlocksGrow(log, from, n);
    BlocksGrow(log, n + 1, |log|);
    BlocksPrefix(log, log + [wqe], n);
    assert Holds(log, sq, n, k);
    // Seen from the new entry, the old block lies further round the ring than the entry reaches.
    var j := position + SQ_BB_COUNT - head;
    assert BbCount(wqe.opcode) <= j < SQ_BB_COUNT;
    PublishPlaces(sq, Parts(wqe), head, j);
    NextLap(position);
  }

  lemma {:induction false} NextLap(position: nat)
    ensures (position + SQ_BB_COUNT) % SQ_BB_COUNT == position % SQ_BB_COUNT
    ensures (position + SQ_BB_COUNT) / SQ_BB_COUNT == position / SQ_BB_COUNT + 1
  {
  }

  lemma {:induction false} PostHolds(log: seq<Wqe>, sq: seq<Block>, from: nat, wqe: Wqe)
    requires |sq| == SQ_BB_COUNT && from <= |log| && SqHolds(log, sq, from)
    requires Blocks(log, |log|) + BbCount(wqe.opcode) - Blocks(log, from) <= SQ_BB_COUNT
    ensures SqHolds(log + [wqe], Publish(sq, Parts(wqe), Blocks(log, |log|) % SQ_BB_COUNT), from)
  {
    var more := log + [wqe];
    var head := Blocks(log, |log|);
    var sq' := Publish(sq, Parts(wqe), head % SQ_BB_COUNT);
    BlocksPrefix(log, more, |log|);
    forall n, k | from <= n < |more| && 0 <= k < BbCount(more[n].opcode)
      ensures Holds(more, sq', n, k)
    {
      if n < |log| {
        PostKeepsOld(log, sq, from, wqe, n, k);
      } else {
        PublishPlaces(sq, Parts(wqe), head, k);
      }
    }
  }

  // The completion ring

  /** The completion of entry `n`: it carries the bit of its lap and names the last basic block of the entry. */
  ghost predicate CompletionOf(log: seq<Wqe>, c: Cqe, n: nat)
    requires n < |log|
  {
    && c.owner == (n / CQ_DEPTH % 2 == 0)
    && c.entryIdx as int % SQ_BB_COUNT == (Blocks(log, n + 1) - 1) % SQ_BB_COUNT
  }

  /** The last lap of completions is in the ring; places never written still carry a clear owner bit. */
  ghost predicate CqHolds(log: seq<Wqe>, cq: seq<Cqe>, completed: nat)
    requires |cq| == CQ_DEPTH && completed <= |log|
  {
    && (forall n :: 0 <= n < completed <= n + CQ_DEPTH ==> CompletionOf(log, cq[n % CQ_DEPTH], n))
    && (forall j :: completed <= j < CQ_DEPTH ==> !cq[j].owner)
  }

  /** Hardware writes the next completion. */
  lemma {:induction false} CompleteHolds(log: seq<Wqe>, cq: seq<Cqe>, completed: nat, c: Cqe)
    requires |cq| == CQ_DEPTH && completed < |log| && CqHolds(log, cq, completed) && CompletionOf(log, c, completed)
    ensures CqHolds(log, cq[completed % CQ_DEPTH := c], completed + 1)
  {
    var cq' := cq[completed % CQ_DEPTH := c];
    forall n | 0 <= n < completed + 1 <= n + CQ_DEPTH
      ensures CompletionOf(log, cq'[n % CQ_DEPTH], n)
    {
      if n < completed {
        PlacesDiffer(n, completed);
        assert CompletionOf(log, cq[n % CQ_DEPTH], n);
      }
    }
  }

  /** The completions of the last lap show how their entries ended. */
  ghost predicate OutcomesShown(outcomes: seq<Outcome>, cq: seq<Cqe>)
    requires |cq| == CQ_DEPTH
  {
    forall n :: 0 <= n < |outcomes| <= n + CQ_DEPTH ==> OutcomeOf(cq[n % CQ_DEPTH]) == outcomes[n]
  }

  lemma {:induction false} OutcomeAdded(outcomes: seq<Outcome>, cq: seq<Cqe>, c: Cqe)
    requires |cq| == CQ_DEPTH && OutcomesShown(outcomes, cq)
    ensures OutcomesShown(outcomes + [OutcomeOf(c)], cq[|outcomes| % CQ_DEPTH := c])
  {
    var cq' := cq[|outcomes| % CQ_DEPTH := c];
    forall n | 0 <= n < |outcomes| + 1 <= n + CQ_DEPTH
      ensures OutcomeOf(cq'[n % CQ_DEPTH]) == (outcomes + [OutcomeOf(c)])[n]
    {
      if n < |outcomes| {
        PlacesDiffer(n, |outcomes|);
      }
    }
  }

  lemma {:induction false} PostKeepsCq(log: seq<Wqe>, cq: seq<Cqe>, completed: nat, wqe: Wqe)
    requires |cq| == CQ_DEPTH && completed <= |log| && CqHolds(log, cq, completed)
    ensures CqHolds(log + [wqe], cq, completed)
  {
    forall n | 0 <= n < completed <= n + CQ_DEPTH
      ensures CompletionOf(log + [wqe], cq[n % CQ_DEPTH], n)
    {
      BlocksPrefix(log, log + [wqe], n + 1);
      assert CompletionOf(log, cq[n % CQ_DEPTH], n);
    }
  }

  /** The consumer's test of the owner bit at its tail. */
  predicate Ready(c: Cqe, cqTail: u32)
  {
    var validOwner := cqTail / CQ_DEPTH % 2 != 0;
    validOwner != c.owner
  }

  /** The owner test is exact: a place reads as ready if and only if hardware wrote it on the current lap. */
  lemma {:induction false} OwnerExact(log: seq<Wqe>, cq: seq<Cqe>, completed: nat, reclaimed: nat)
    requires |cq| == CQ_DEPTH && reclaimed <= completed <= |log| && completed <= reclaimed + CQ_DEPTH
    requires CqHolds(log, cq, completed)
    ensures Ready(cq[reclaimed % WORD % CQ_DEPTH], reclaimed % WORD) <==> reclaimed < completed
    ensures reclaimed < completed ==> CompletionOf(log, cq[reclaimed % WORD % CQ_DEPTH], reclaimed)
  {
    WrappedPlace(reclaimed);
    if reclaimed < completed {
      assert CompletionOf(log, cq[reclaimed % CQ_DEPTH], reclaimed);
    } else if reclaimed >= CQ_DEPTH {
      NextLap(reclaimed - CQ_DEPTH);
      assert CompletionOf(log, cq[(reclaimed - CQ_DEPTH) % CQ_DEPTH], reclaimed - CQ_DEPTH);
    }
  }

  /** Basic blocks that a completion frees, as computed from its entry index and the wrapped tail. */
  function CompletedBb(entryIdx: u16, sqTail: u32): (n: nat)
    ensures 1 <= n <= SQ_BB_COUNT
  {
    (entryIdx as int % SQ_BB_COUNT + SQ_BB_COUNT - sqTail % SQ_BB_COUNT) % SQ_BB_COUNT + 1
  }

  /** A completion frees exactly the blocks of its entry. */
  lemma {:induction false} CompletedBbExact(log: seq<Wqe>, c: Cqe, n: nat)
    requires n < |log| && CompletionOf(log, c, n)
    ensures CompletedBb(c.entryIdx, Blocks(log, n) % WORD) == BbCount(log[n].opcode)
  {
    WrappedPlace(Blocks(log, n));
    RingDistance(Blocks(log, n), BbCount(log[n].opcode));
  }

  // The rings as an image of the log

  /** The entry says where it stands: its place in the ring and the bit of its lap, without any wrap at 2^32. */
  ghost predicate Stamped(log: seq<Wqe>, n: nat)
    requires n < |log|
  {
    && log[n].bbIdx == Blocks(log, n) % SQ_BB_COUNT
    && log[n].owner == (Blocks(log, n) / SQ_BB_COUNT % 2 == 0)
  }

  /**
   Both rings show the log: blocks of unreclaimed entries and the last lap of
   completions are in place, and every entry is stamped with its position.
   */
  ghost predicate Image(
    log: seq<Wqe>, sq: seq<Block>, cq: seq<Cqe>, reclaimed: nat, completed: nat, rung: nat)
  {
    && |sq| == SQ_BB_COUNT && |cq| == CQ_DEPTH && reclaimed <= completed <= rung <= |log|
    && SqHolds(log, sq, reclaimed) && CqHolds(log, cq, completed)
    && forall n :: 0 <= n < |log| ==> Stamped(log, n)
  }

  /** Appending an entry that fits and says where it stands. */
  lemma {:induction false} ImageAppend(
    log: seq<Wqe>, sq: seq<Block>, cq: seq<Cqe>, reclaimed: nat, completed: nat, rung: nat, wqe: Wqe)
    requires Image(log, sq, cq, reclaimed, completed, rung)
    requires Blocks(log, |log|) + BbCount(wqe.opcode) - Blocks(log, reclaimed) <= SQ_BB_COUNT
    requires wqe.bbIdx == Blocks(log, |log|) % SQ_BB_COUNT
    requires wqe.owner == (Blocks(log, |log|) / SQ_BB_COUNT % 2 == 0)
    ensures var more := log + [wqe];
      && Image(more, Publish(sq, Parts(wqe), Blocks(log, |log|) % SQ_BB_COUNT), cq, reclaimed, completed, rung)
      && Blocks(more, |more|) == Blocks(log, |log|) + BbCount(wqe.opcode)
      && Blocks(more, reclaimed) == Blocks(log, reclaimed) && Blocks(more, completed) == Blocks(log, completed)
      && Blocks(more, rung) == Blocks(log, rung)
  {
    var more := log + [wqe];
    PostHolds(log, sq, reclaimed, wqe);
    PostKeepsCq(log, cq, completed, wqe);
    BlocksPrefix(log, more, |log|);
    BlocksPrefix(log, more, reclaimed);
    BlocksPrefix(log, more, completed);
    BlocksPrefix(log, more, rung);
    forall n | 0 <= n < |more|
      ensures Stamped(more, n)
    {
      if n < |log| {
        BlocksPrefix(log, more, n);
        assert Stamped(log, n);
      }
    }
  }

  lemma {:induction false} ImageComplete(
    log: seq<Wqe>, sq: seq<Block>, cq: seq<Cqe>, reclaimed: nat, completed: nat, rung: nat, c: Cqe)
    requires Image(log, sq, cq, reclaimed, completed, rung) && completed < rung && CompletionOf(log, c, completed)
    ensures Image(log, sq, cq[completed % CQ_DEPTH := c], reclaimed, completed + 1, rung)
  {
    CompleteHolds(log, cq, completed, c);
  }

  lemma {:induction false} ImageReclaim(
    log: seq<Wqe>, sq: seq<Block>, cq: seq<Cqe>, reclaimed: nat, completed: nat, rung: nat)
    requires Image(log, sq, cq, reclaimed, completed, rung) && reclaimed < completed
    ensures Image(log, sq, cq, reclaimed + 1, completed, rung)
    ensures Blocks(log, reclaimed + 1) == Blocks(log, reclaimed) + BbCount(log[reclaimed].opcode)
  {
    assert forall n, k :: reclaimed + 1 <= n < |log| && 0 <= k < BbCount(log[n].opcode) ==> Holds(log, sq, n, k);
  }
}
