/**
 The send and completion rings of one UDMA queue pair: posting, doorbells,
 polling and draining on 32-bit counters, with the hardware as a step that may
 run at any point in between.

 Assumptions. One core posts to and polls a queue pair. Hardware consumes entries
 in order, only up to the rung doorbell, and writes one completion per entry that
 names the entry's last basic block; its status may be anything. A queue pair with
 `honest` false drops these assumptions: its hardware may write any completion
 anywhere. Copies to and from the rings are atomic.
 */
module Udma {
  import opened UdmaLog
  import opened Wrappers

  const STATUS_SUCCESS: u32 := 0
  const STATUS_CQ_TIMEOUT: u32 := 0xFF
  const STATUS_SQ_FULL: u32 := 0xFFFF_FFFE
  const STATUS_INVALID: u32 := 0xFFFF_FFFF
  const MAX_SQE_BB_NUM := 4
  const MAX_QP_COUNT := 48
  const MAX_RETRY_TIMES := 1_000_000
  const WQE_BB_BYTES := 64
  const CQE_BYTES := 64
  const FLAG_COMPLETION := 0x20

  /** Addresses are zero when the host has not set them. */
  datatype SqContext = SqContext(
    bufAddr: nat, headAddr: nat, tailAddr: nat, wqeCntAddr: nat, dbAddr: nat, depth: nat, baseBkShift: nat)

  datatype CqContext = CqContext(bufAddr: nat, tailAddr: nat, dbAddr: nat, depth: nat, baseBkShift: nat)

  datatype Info = Info(
    qpNum: nat, qpIdx: nat, sqPtr: nat, scqPtr: nat, memPtr: nat, eidAddr: nat, sq: SqContext, cq: CqContext)

  function Pow2(n: nat): nat
  {
    if n == 0 then 1 else 2 * Pow2(n - 1)
  }

  /** What `UDMAPollCQ` and `UDMAPollCQUntilSqTail` check before they touch a ring. */
  predicate PollContextValid(i: Info)
  {
    && 0 < i.qpNum <= MAX_QP_COUNT && i.qpIdx < i.qpNum && i.sqPtr != 0 && i.scqPtr != 0
    && i.sq.bufAddr != 0 && i.sq.headAddr != 0 && i.sq.tailAddr != 0 && i.sq.depth == SQ_BB_COUNT
    && i.sq.baseBkShift < 32 && Pow2(i.sq.baseBkShift) >= WQE_BB_BYTES
    && i.cq.bufAddr != 0 && i.cq.tailAddr != 0 && i.cq.dbAddr != 0 && i.cq.depth == CQ_DEPTH
    && i.cq.baseBkShift < 32 && Pow2(i.cq.baseBkShift) >= CQE_BYTES
  }

  /** One call of `UDMAPostSend`; `scratchOk` says that the scratch buffer is aligned and large enough. */
  datatype PostArgs = PostArgs(
    opcode: Opcode, scratchOk: bool, remoteAddr: nat, localAddr: nat, messageLen: nat, flag: nat,
    signal: Option<(nat, nat)>)

  /** The checks of `UDMAPostSend` and `UDMAValidatePostSend` that do not look at the ring. */
  predicate PostValid(i: Info, a: PostArgs)
  {
    && 0 < i.qpNum <= MAX_QP_COUNT && i.qpIdx < i.qpNum && i.sqPtr != 0 && a.scratchOk
    && (a.opcode == WriteWithNotify ==> a.signal.Some? && a.signal.value.0 != 0)
    && i.memPtr != 0 && a.remoteAddr != 0 && (a.localAddr != 0 || a.messageLen == 0) && a.messageLen < WORD
    && a.flag / FLAG_COMPLETION % 2 == 1
    && i.sq.bufAddr != 0 && i.sq.headAddr != 0 && i.sq.tailAddr != 0 && i.sq.wqeCntAddr != 0 && i.sq.dbAddr != 0
    && i.sq.depth == SQ_BB_COUNT && i.sq.baseBkShift < 32 && Pow2(i.sq.baseBkShift) == WQE_BB_BYTES
  }

  predicate FlushContextValid(i: Info)
  {
    i.sqPtr != 0 && i.sq.headAddr != 0 && i.sq.tailAddr != 0 && i.sq.dbAddr != 0 && i.sq.depth == SQ_BB_COUNT
  }

  /** The entry that a post at wrapped position `head` writes. */
  function EntryFor(a: PostArgs, head: u32): Wqe
  {
    Wqe(a.opcode, a.flag, head % SQ_BB_COUNT, head / SQ_BB_COUNT % 2 == 0, a.remoteAddr, a.localAddr, a.messageLen,
        if a.opcode == WriteWithNotify then a.signal else None)
  }

  /** The entry does what was asked for. */
  predicate Describes(wqe: Wqe, a: PostArgs)
  {
    && wqe.opcode == a.opcode && wqe.flag == a.flag && wqe.len == a.messageLen
    && wqe.remoteAddr == a.remoteAddr && wqe.localAddr == a.localAddr
    && (a.opcode == WriteWithNotify ==> wqe.notify == a.signal) && (a.opcode != WriteWithNotify ==> wqe.notify == None)
  }

  /** The two status bytes in one number. */
  function StatusCode(o: Outcome): (code: u32)
    ensures code / 0x100 == o.status as int && code % 0x100 == o.substatus as int
    ensures code == STATUS_SUCCESS <==> o.Succeeded()
  {
    o.status as int * 0x100 + o.substatus as int
  }

  /** A failed completion can be told from the driver's own statuses unless its bytes are 0 and 0xFF. */
  lemma {:induction false} FailureLooksLikeTimeout(o: Outcome)
    requires !o.Succeeded()
    ensures StatusCode(o) in {STATUS_SUCCESS, STATUS_CQ_TIMEOUT, STATUS_SQ_FULL, STATUS_INVALID} <==>
      o == Outcome(0, 0xFF)
  {
    assert StatusCode(o) == o.status as int * 0x100 + o.substatus as int;
  }

  class QueuePair {
    const info: Info
    const honest: bool

    // Counters and rings in device memory
    var head: u32
    var tail: u32
    var wqeCnt: u32
    var doorbell: u32
    var cqTail: u32
    var cqDoorbell: u32
    var sq: seq<Block>
    var cq: seq<Cqe>

    // Hardware's own registers: the block it reads next and the completions it has written
    var fetchPosition: nat
    var completed: nat

    // Unbounded counterparts: basic blocks ever posted and freed
    ghost var posted: nat
    ghost var freed: nat

    // The log: entries ever posted, how the completed ones ended, those exposed by a doorbell, reclaimed by a poll
    ghost var log: seq<Wqe>
    ghost var outcomes: seq<Outcome>
    ghost var rung: nat
    ghost var reclaimed: nat

    /** The wrapped counters stand for the unbounded ones, and the ring is never overfull. */
    ghost predicate Counters()
      reads this
    {
      && |sq| == SQ_BB_COUNT && |cq| == CQ_DEPTH
      && head == posted % WORD && tail == freed % WORD
      && freed <= posted <= freed + SQ_BB_COUNT
    }

    /** The rings and counters refine the log. */
    ghost predicate Tracked()
      reads this
    {
      && Image(log, sq, cq, reclaimed, completed, rung)
      && posted == Blocks(log, |log|) && freed == Blocks(log, reclaimed) && fetchPosition == Blocks(log, completed)
      && wqeCnt == |log| % WORD && cqTail == reclaimed % WORD && doorbell == Blocks(log, rung) % WORD
      && |outcomes| == completed && OutcomesShown(outcomes, cq) && AllSucceeded()
    }

    /** Every entry whose blocks were reclaimed, in the whole life of the queue pair, completed without an error. */
    ghost predicate AllSucceeded()
      reads this
    {
      forall n :: 0 <= n < reclaimed && n < |outcomes| ==> outcomes[n].Succeeded()
    }

    ghost predicate Valid()
      reads this
    {
      Counters() && (honest ==> Tracked())
    }

    /** A queue pair as the host sets it up: counters zero, owner bits clear. */
    constructor (info: Info, honest: bool)
      ensures Valid() && this.info == info && this.honest == honest
      ensures log == [] && posted == 0 && freed == 0
    {
      this.info := info;
      this.honest := honest;
      head, tail, wqeCnt, doorbell, cqTail, cqDoorbell := 0, 0, 0, 0, 0, 0;
      sq := seq(SQ_BB_COUNT, i => Blank);
      cq := seq(CQ_DEPTH, i => Cqe(false, 0, 0, 0));
      fetchPosition, completed := 0, 0;
      posted, freed, log, outcomes, rung, reclaimed := 0, 0, [], [], 0, 0;
    }

    /**
     Unpolled completions are never more than unreclaimed entries, these never
     more than occupied blocks, and these never more than either ring holds; so
     no completion is overwritten before it is polled.
     */
    lemma {:induction false} NoOverrun()
      requires Valid() && honest
      ensures completed - reclaimed <= Sub32(wqeCnt, cqTail) == |log| - reclaimed
      ensures |log| - reclaimed <= Sub32(head, tail) == posted - freed <= SQ_BB_COUNT == CQ_DEPTH
    {
      BlocksGrow(log, reclaimed, |log|);
      WrappedDistance(posted, freed);
      WrappedDistance(|log|, reclaimed);
    }

    // Hardware

    /** The fields the consumer writes. */
    ghost function Consumer(): (u32, u32, u32, nat, nat)
      reads this
    {
      (tail, cqTail, cqDoorbell, freed, reclaimed)
    }

    /** Hardware has entries to fetch exactly when the doorbell is ahead of it. */
    lemma {:induction false} DoorbellExact()
      requires Valid() && honest
      ensures Sub32(doorbell, fetchPosition % WORD) == Blocks(log, rung) - fetchPosition
      ensures fetchPosition % WORD != doorbell <==> completed < rung
    {
      BlocksGrow(log, reclaimed, completed);
      BlocksGrow(log, rung, |log|);
      BlocksAhead(log, completed, rung);
    }

    /** The blocks that hardware reads next are those of the oldest entry it has not completed. */
    method Fetch() returns (fetched: seq<Block>)
      requires Valid() && honest && completed < rung
      ensures fetched == Parts(log[completed]) && Stamped(log, completed)
    {
      assert Holds(log, sq, completed, 0) && Stamped(log, completed);
      fetched := [sq[fetchPosition % SQ_BB_COUNT]];
      if fetched[0].wqe.opcode == WriteWithNotify {
        assert Holds(log, sq, completed, 1);
        fetched := fetched + [sq[(fetchPosition + 1) % SQ_BB_COUNT]];
      }
    }

    /**
     Hardware takes the next exposed entry from the ring and completes it with any
     status. What it fetches is the entry that was posted.
     */
    method Complete(status: byte, substatus: byte) returns (fetched: seq<Block>)
      requires Valid() && honest && fetchPosition % WORD != doorbell
      modifies this`cq, this`completed, this`outcomes, this`fetchPosition
      ensures Valid() && completed == old(completed) + 1 <= rung
      ensures outcomes == old(outcomes) + [Outcome(status, substatus)]
      ensures fetched == Parts(log[old(completed)]) && Stamped(log, old(completed))
    {
      DoorbellExact();
      fetched := Fetch();
      var last := (fetchPosition + |fetched| - 1) % SQ_BB_COUNT;
      var entry := AnyIndexOf(last);
      var c := Cqe(completed / CQ_DEPTH % 2 == 0, status, substatus, entry);
      ImageComplete(log, sq, cq, reclaimed, completed, rung, c);
      OutcomeAdded(outcomes, cq, c);
      cq := cq[completed % CQ_DEPTH := c];
      outcomes := outcomes + [Outcome(status, substatus)];
      fetchPosition := fetchPosition + |fetched|;
      completed := completed + 1;
    }

    /** Any 16-bit index that names this place of the ring. */
    static method AnyIndexOf(place: nat) returns (entry: u16)
      requires place < SQ_BB_COUNT
      ensures entry as int % SQ_BB_COUNT == place
    {
      assert (place as u16) as int % SQ_BB_COUNT == place;
      entry :| entry as int % SQ_BB_COUNT == place;
    }

    /** Whatever hardware does while the core is between two accesses. */
    method Hardware()
      requires Valid()
      modifies this`cq, this`completed, this`outcomes, this`fetchPosition
      ensures Valid() && old(outcomes) <= outcomes && completed >= old(completed)
    {
      var steps: nat := *;
      if honest {
        while steps > 0 && fetchPosition % WORD != doorbell
          invariant Valid() && old(outcomes) <= outcomes && completed >= old(completed)
        {
          var status: byte, substatus: byte := *, *;
          var fetched := Complete(status, substatus);
          steps := steps - 1;
        }
      } else {
        while steps > 0
          invariant Valid() && old(outcomes) <= outcomes && completed >= old(completed)
        {
          var place: nat, c: Cqe := *, *;
          cq := cq[place % CQ_DEPTH := c];
          steps := steps - 1;
        }
      }
    }

    // Polling

    /**
     Spin until the completion at the tail carries the bit of the current lap. A
     wait that used up its retries counts as timed out, even if the last look
     found the completion.
     */
    method AwaitCompletion() returns (ready: bool)
      requires Valid()
      modifies this`cq, this`completed, this`outcomes, this`fetchPosition
      ensures Valid() && old(outcomes) <= outcomes && completed >= old(completed)
      ensures ready ==> Ready(cq[cqTail % CQ_DEPTH], cqTail)
      ensures honest && old(reclaimed < completed) ==> ready
    {
      Hardware();
      var times := 0;
      while !Ready(cq[cqTail % CQ_DEPTH], cqTail) && times < MAX_RETRY_TIMES
        invariant Valid() && old(outcomes) <= outcomes && completed >= old(completed) && times <= MAX_RETRY_TIMES
        invariant honest && old(reclaimed < completed) ==> times == 0
        decreases MAX_RETRY_TIMES - times
      {
        if honest {
          ReadyExact();
        }
        Hardware();
        times := times + 1;
      }
      ready := times < MAX_RETRY_TIMES;
    }

    /** With honest hardware, the completion at the tail reads as ready exactly when the oldest entry is completed. */
    lemma {:induction false} ReadyExact()
      requires Valid() && honest
      ensures Ready(cq[cqTail % CQ_DEPTH], cqTail) <==> reclaimed < completed
      ensures reclaimed < completed ==> OutcomeOf(cq[cqTail % CQ_DEPTH]) == outcomes[reclaimed]
    {
      NoOverrun();
      OwnerExact(log, cq, completed, reclaimed);
      WrappedPlace(reclaimed);
      if reclaimed < completed {
        assert OutcomeOf(cq[reclaimed % CQ_DEPTH]) == outcomes[reclaimed];
      }
    }

    /** With honest hardware, a ready completion is that of the oldest entry and frees exactly its blocks. */
    lemma {:induction false} ReadyMeans()
      requires Valid() && honest && Ready(cq[cqTail % CQ_DEPTH], cqTail)
      ensures reclaimed < completed && OutcomeOf(cq[cqTail % CQ_DEPTH]) == outcomes[reclaimed]
      ensures CompletedBb(cq[cqTail % CQ_DEPTH].entryIdx, tail) == BbCount(log[reclaimed].opcode) <= Sub32(head, tail)
    {
      ReadyExact();
      NoOverrun();
      OwnerExact(log, cq, completed, reclaimed);
      CompletedBbExact(log, cq[cqTail % CQ_DEPTH], reclaimed);
      BlocksGrow(log, reclaimed + 1, |log|);
    }

    /** The oldest entry that is not reclaimed has failed, and `status` says how. */
    ghost predicate FailedWith(status: u32)
      reads this
    {
      reclaimed < |outcomes| && !outcomes[reclaimed].Succeeded() && status == StatusCode(outcomes[reclaimed])
    }

    /** Some entry before entry `n` is completed with an error and not reclaimed. */
    ghost predicate FailureBefore(n: int)
      reads this
    {
      exists k :: reclaimed <= k < n && k < |outcomes| && !outcomes[k].Succeeded()
    }

    /**
     A status other than success, timeout and invalid is that of the completion at
     the tail, which is ready, shows an error, and is not consumed.
     */
    ghost predicate Reports(status: u32)
      requires |cq| == CQ_DEPTH
      reads this
    {
      status in {STATUS_SUCCESS, STATUS_CQ_TIMEOUT, STATUS_INVALID} ||
      var c := cq[cqTail % CQ_DEPTH];
      Ready(c, cqTail) && !OutcomeOf(c).Succeeded() && status == StatusCode(OutcomeOf(c)) &&
      (honest ==> FailedWith(status))
    }

    /** Store the tails behind one completion that frees `bb` blocks. */
    method Advance(bb: u32)
      requires Valid() && 0 < bb <= posted - freed
      requires honest ==> reclaimed < completed && bb == BbCount(log[reclaimed].opcode)
      requires honest ==> outcomes[reclaimed].Succeeded()
      modifies this`tail, this`cqTail, this`cqDoorbell, this`freed, this`reclaimed
      ensures Valid() && freed == old(freed) + bb && tail == Add32(old(tail), bb)
      ensures cqTail == Add32(old(cqTail), 1) && cqDoorbell == cqTail % 0x100_0000
      ensures honest ==> reclaimed == old(reclaimed) + 1
    {
      AdvanceFacts(bb);
      cqTail := Add32(cqTail, 1);
      tail := Add32(tail, bb);
      cqDoorbell := cqTail % 0x100_0000;
      freed := freed + bb;
      reclaimed := reclaimed + 1;
    }

    /** What the stores of an advance amount to in unbounded terms. */
    lemma {:induction false} AdvanceFacts(bb: u32)
      requires Valid() && 0 < bb <= posted - freed
      requires honest ==> reclaimed < completed && bb == BbCount(log[reclaimed].opcode)
      requires honest ==> outcomes[reclaimed].Succeeded()
      ensures Add32(tail, bb) == (freed + bb) % WORD
      ensures honest ==>
        && Image(log, sq, cq, reclaimed + 1, completed, rung) && Blocks(log, reclaimed + 1) == freed + bb
        && Add32(cqTail, 1) == (reclaimed + 1) % WORD
    {
      WrappedAdd(freed, bb);
      WrappedAdd(reclaimed, 1);
      if honest {
        ImageReclaim(log, sq, cq, reclaimed, completed, rung);
      }
    }

    /**
     Consume the completion at the tail, if it comes in time, succeeded, and frees
     at most `limit` blocks, none of them free already; at least `needed` blocks
     have to be occupied. With honest hardware only these two bounds can make it
     invalid.
     */
    method ConsumeNext(limit: nat, needed: nat) returns (status: u32)
      requires Valid() && limit <= SQ_BB_COUNT && info.sq.depth == SQ_BB_COUNT
      modifies this`cq, this`completed, this`outcomes, this`fetchPosition, this`tail, this`cqTail,
        this`cqDoorbell, this`freed, this`reclaimed
      ensures Valid() && old(outcomes) <= outcomes && completed >= old(completed)
      ensures status == STATUS_SUCCESS ==> old(freed) < freed <= old(freed) + limit
      ensures status == STATUS_SUCCESS ==> cqTail == Add32(old(cqTail), 1) && old(freed) < posted
      ensures status == STATUS_SUCCESS && honest ==> reclaimed == old(reclaimed) + 1
      ensures status == STATUS_SUCCESS ==>
        Ready(cq[old(cqTail) % CQ_DEPTH], old(cqTail)) && OutcomeOf(cq[old(cqTail) % CQ_DEPTH]).Succeeded()
      ensures status != STATUS_SUCCESS ==> Consumer() == old(Consumer())
      ensures status == STATUS_INVALID && honest ==> reclaimed < |log|
      ensures status == STATUS_INVALID && honest ==>
        BbCount(log[reclaimed].opcode) > limit || needed > posted - freed
      ensures Reports(status)
      ensures honest && old(reclaimed < completed) ==>
        var o := outcomes[old(reclaimed)];
        if o.Succeeded() then status in {STATUS_SUCCESS, STATUS_INVALID} else status == StatusCode(o)
    {
      var ready := AwaitCompletion();
      if !ready {
        return STATUS_CQ_TIMEOUT;
      }
      var cqe := cq[cqTail % CQ_DEPTH];
      if honest {
        ReadyMeans();
      }
      if cqe.status != 0 || cqe.substatus != 0 {
        return cqe.status as int * 0x100 + cqe.substatus as int;
      }
      WrappedDistance(posted, freed);
      var sqOutstanding := Sub32(head, tail);
      if sqOutstanding == 0 || sqOutstanding > info.sq.depth || needed > sqOutstanding {
        return STATUS_INVALID;
      }
      var completedBb := CompletedBb(cqe.entryIdx, tail);
      if completedBb > limit || completedBb > sqOutstanding {
        return STATUS_INVALID;
      }
      Advance(completedBb);
      return STATUS_SUCCESS;
    }

    /**
     Consume completions until the completion counter reaches `idx`. On success it
     has; with honest hardware it stops early only on a timeout or on a failed
     entry, and it has then reclaimed the completions before that one.
     */
    method PollCQ(idx: u32) returns (status: u32)
      requires Valid()
      modifies this`cq, this`completed, this`outcomes, this`fetchPosition, this`tail, this`cqTail,
        this`cqDoorbell, this`freed, this`reclaimed
      ensures Valid() && freed >= old(freed) && old(outcomes) <= outcomes && completed >= old(completed)
      ensures status == STATUS_SUCCESS ==> cqTail == idx
      ensures Reports(status)
      ensures !PollContextValid(info) ==> status == STATUS_INVALID
      ensures honest ==> old(reclaimed) <= reclaimed <= old(reclaimed) + Sub32(idx, old(cqTail))
      ensures honest && status == STATUS_SUCCESS ==> reclaimed == old(reclaimed) + Sub32(idx, old(cqTail))
      ensures honest && status == STATUS_INVALID ==>
        !PollContextValid(info) || Sub32(idx, old(cqTail)) > CQ_DEPTH
      ensures honest && PollContextValid(info) && Sub32(idx, old(cqTail)) <= CQ_DEPTH ==>
        && (old(FailureBefore(reclaimed + Sub32(idx, cqTail))) ==> FailedWith(status))
        && (old(reclaimed + Sub32(idx, cqTail) <= completed && !FailureBefore(reclaimed + Sub32(idx, cqTail))) ==>
              status == STATUS_SUCCESS)
    {
      if !PollContextValid(info) {
        return STATUS_INVALID;
      }
      var completionCount := Sub32(idx, cqTail);
      if completionCount > CQ_DEPTH {
        return STATUS_INVALID;
      }
      AddSub(cqTail, idx);
      var done := 0;
      while done < completionCount
        invariant Valid() && freed >= old(freed) && old(outcomes) <= outcomes && completed >= old(completed)
        invariant 0 <= done <= completionCount
        invariant cqTail == Add32(old(cqTail), done)
        invariant honest ==> reclaimed == old(reclaimed) + done
      {
        AddAdd(old(cqTail), done);
        status := ConsumeNext(MAX_SQE_BB_NUM, 0);
        if status != STATUS_SUCCESS {
          return status;
        }
        done := done + 1;
      }
      return STATUS_SUCCESS;
    }

    /** A target at the end of entry `n` is reached entry by entry. */
    lemma {:induction false} BoundaryAhead(n: nat)
      requires Valid() && honest && reclaimed <= n <= |log| && freed < Blocks(log, n)
      ensures reclaimed < n && BbCount(log[reclaimed].opcode) <= Blocks(log, n) - freed <= posted - freed
    {
      BlocksGrow(log, reclaimed + 1, n);
      BlocksGrow(log, n, |log|);
    }

    /** Wrapped position `position` is where entry `n - 1` ends. */
    ghost predicate EntryEnd(n: nat, position: u32)
      reads this
    {
      n <= |log| && Blocks(log, n) % WORD == position
    }

    /** The draining loop, with the target known as an unbounded position. */
    method DrainTo(sqTarget: u32, ghost target: nat, ghost n: nat) returns (status: u32)
      requires Valid() && info.sq.depth == SQ_BB_COUNT
      requires sqTarget == target % WORD && freed <= target <= freed + SQ_BB_COUNT
      modifies this`cq, this`completed, this`outcomes, this`fetchPosition, this`tail, this`cqTail,
        this`cqDoorbell, this`freed, this`reclaimed
      ensures Valid() && old(outcomes) <= outcomes && completed >= old(completed)
      ensures old(freed) <= freed <= target
      ensures status == STATUS_SUCCESS ==> freed == target
      ensures Reports(status)
      ensures honest && n <= |log| && target == Blocks(log, n) && old(reclaimed) <= n ==>
        && status != STATUS_INVALID && (status == STATUS_SUCCESS ==> reclaimed == n)
        && (old(FailureBefore(n)) ==> FailedWith(status))
        && (old(n <= completed && !FailureBefore(n)) ==> status == STATUS_SUCCESS)
    {
      ghost var boundary := honest && n <= |log| && target == Blocks(log, n) && reclaimed <= n;
      WrappedEqual(target, freed);
      while tail != sqTarget
        invariant Valid() && old(outcomes) <= outcomes && completed >= old(completed)
        invariant old(freed) <= freed <= target <= freed + SQ_BB_COUNT
        invariant tail != sqTarget <==> freed != target
        invariant boundary ==> reclaimed <= n
        decreases target - freed
      {
        WrappedDistance(target, freed);
        var remaining := Sub32(sqTarget, tail);
        if boundary {
          BoundaryAhead(n);
        }
        status := ConsumeNext(remaining, remaining);
        if status != STATUS_SUCCESS {
          return status;
        }
        WrappedEqual(target, freed);
      }
      if boundary {
        BlocksGrow(log, reclaimed, n);
      }
      return STATUS_SUCCESS;
    }

    /**
     Drain until the send tail reaches `sqTarget`. Whatever completions say, the
     tail only moves forward and passes neither the target nor the head; each
     consumed completion brings it strictly closer; success means it is there.
     With honest hardware a target at the end of some entry `n` is never invalid,
     and reaching it reclaims exactly the entries before it.
     */
    method PollCQUntilSqTail(sqTarget: u32, ghost n: nat) returns (status: u32)
      requires Valid()
      modifies this`cq, this`completed, this`outcomes, this`fetchPosition, this`tail, this`cqTail,
        this`cqDoorbell, this`freed, this`reclaimed
      ensures Valid() && old(outcomes) <= outcomes && completed >= old(completed)
      ensures status == STATUS_SUCCESS ==> tail == sqTarget && freed == old(freed) + Sub32(sqTarget, old(tail))
      ensures old(freed) <= freed <= old(freed) + Sub32(sqTarget, old(tail))
      ensures Reports(status)
      ensures honest && EntryEnd(n, sqTarget) && old(reclaimed) <= n && PollContextValid(info) ==>
        && status != STATUS_INVALID && (status == STATUS_SUCCESS ==> reclaimed == n)
        && (old(FailureBefore(n)) ==> FailedWith(status))
        && (old(n <= completed && !FailureBefore(n)) ==> status == STATUS_SUCCESS)
    {
      if !PollContextValid(info) {
        return STATUS_INVALID;
      }
      if honest && EntryEnd(n, sqTarget) && reclaimed <= n {
        BoundaryDistance(n);
      }
      if Sub32(sqTarget, tail) > info.sq.depth {
        return STATUS_INVALID;
      }
      WrappedTarget(freed, sqTarget);
      status := DrainTo(sqTarget, freed + Sub32(sqTarget, tail), n);
    }

    lemma {:induction false} BoundaryDistance(n: nat)
      requires Valid() && honest && reclaimed <= n <= |log|
      ensures Sub32(Blocks(log, n) % WORD, tail) == Blocks(log, n) - freed <= posted - freed
    {
      BlocksGrow(log, reclaimed, n);
      BlocksGrow(log, n, |log|);
      WrappedDistance(Blocks(log, n), freed);
    }

    // Posting

    /** Room in the send ring for a call with valid arguments. */
    method ValidatePostSend(a: PostArgs) returns (status: u32)
      requires Valid()
      ensures status ==
        if !PostValid(info, a) then STATUS_INVALID
        else if posted - freed + BbCount(a.opcode) > SQ_BB_COUNT then STATUS_SQ_FULL
        else STATUS_SUCCESS
    {
      if !PostValid(info, a) {
        return STATUS_INVALID;
      }
      WrappedDistance(posted, freed);
      var outstanding := Sub32(head, tail);
      if outstanding > info.sq.depth {
        return STATUS_INVALID;
      }
      if BbCount(a.opcode) > info.sq.depth - outstanding {
        return STATUS_SQ_FULL;
      }
      return STATUS_SUCCESS;
    }

    /** Expose everything posted so far to hardware. */
    method RingDoorbell()
      requires Valid()
      modifies this`doorbell, this`rung
      ensures Valid() && doorbell == head && rung == |log|
    {
      doorbell := head;
      rung := |log|;
    }

    /** Write an entry at the head and count it. */
    method Append(wqe: Wqe)
      requires Valid() && posted - freed + BbCount(wqe.opcode) <= SQ_BB_COUNT
      requires wqe.bbIdx == head % SQ_BB_COUNT && wqe.owner == (head / SQ_BB_COUNT % 2 == 0)
      modifies this`sq, this`head, this`wqeCnt, this`posted, this`log
      ensures Valid() && log == old(log) + [wqe] && posted == old(posted) + BbCount(wqe.opcode)
    {
      AppendFacts(wqe);
      sq := Publish(sq, Parts(wqe), head % SQ_BB_COUNT);
      head := Add32(head, BbCount(wqe.opcode));
      wqeCnt := Add32(wqeCnt, 1);
      posted := posted + BbCount(wqe.opcode);
      log := log + [wqe];
    }

    /** What the stores of an append amount to in unbounded terms. */
    lemma {:induction false} AppendFacts(wqe: Wqe)
      requires Valid() && posted - freed + BbCount(wqe.opcode) <= SQ_BB_COUNT
      requires wqe.bbIdx == head % SQ_BB_COUNT && wqe.owner == (head / SQ_BB_COUNT % 2 == 0)
      ensures Add32(head, BbCount(wqe.opcode)) == (posted + BbCount(wqe.opcode)) % WORD
      ensures honest ==> Add32(wqeCnt, 1) == (|log| + 1) % WORD
      ensures honest ==> var more := log + [wqe];
        && Image(more, Publish(sq, Parts(wqe), head % SQ_BB_COUNT), cq, reclaimed, completed, rung)
        && Blocks(more, |more|) == posted + BbCount(wqe.opcode) && Blocks(more, reclaimed) == freed
        && Blocks(more, completed) == fetchPosition && Blocks(more, rung) % WORD == doorbell
    {
      WrappedPlace(posted);
      WrappedAdd(posted, BbCount(wqe.opcode));
      WrappedAdd(|log|, 1);
      if honest {
        ImageAppend(log, sq, cq, reclaimed, completed, rung, wqe);
      }
    }

    /** Expose everything posted so far and wait for it; success with honest hardware empties the ring. */
    method Reclaim() returns (status: u32)
      requires Valid()
      modifies this`doorbell, this`rung, this`cq, this`completed, this`outcomes, this`fetchPosition, this`tail,
        this`cqTail, this`cqDoorbell, this`freed, this`reclaimed
      ensures Valid() && rung == |log| && Reports(status) && old(outcomes) <= outcomes
      ensures honest && status == STATUS_SUCCESS ==> freed == posted && reclaimed == |log|
      ensures honest && PollContextValid(info) ==>
        && (old(FailureBefore(|log|)) ==> FailedWith(status))
        && (old(|log| == completed && !FailureBefore(|log|)) ==> status == STATUS_SUCCESS)
    {
      RingDoorbell();
      if honest {
        NoOverrun();
      }
      status := PollCQ(wqeCnt);
    }

    /**
     Post one entry. When the ring is full, a post that rings the doorbell first
     exposes everything posted so far and reclaims it; with honest hardware it
     then never reports a full ring. A post that succeeds has appended exactly
     its entry to the log; one that does not has appended nothing.
     */
    method PostSend(a: PostArgs, ringDoorbell: bool) returns (status: u32)
      requires Valid()
      modifies this
      ensures Valid() && old(outcomes) <= outcomes
      ensures !PostValid(info, a) ==> status == STATUS_INVALID
      ensures status == STATUS_SUCCESS ==> log == old(log) + [EntryFor(a, old(head))]
      ensures status == STATUS_SUCCESS ==> Describes(log[|log| - 1], a)
      ensures status == STATUS_SQ_FULL || Reports(status)
      ensures status == STATUS_SUCCESS && ringDoorbell ==> rung == |log|
      ensures status != STATUS_SUCCESS ==> log == old(log) && head == old(head) && sq == old(sq)
      ensures honest && ringDoorbell ==> status != STATUS_SQ_FULL
      ensures !ringDoorbell ==> rung == old(rung) && Consumer() == old(Consumer())
      ensures !ringDoorbell && PostValid(info, a) ==>
        (status == STATUS_SQ_FULL <==> old(posted - freed) + BbCount(a.opcode) > SQ_BB_COUNT)
      ensures PostValid(info, a) && old(posted - freed) + BbCount(a.opcode) <= SQ_BB_COUNT ==>
        status == if info.eidAddr == 0 then STATUS_INVALID else STATUS_SUCCESS
      ensures PostValid(info, a) && old(posted - freed) + BbCount(a.opcode) > SQ_BB_COUNT && ringDoorbell ==>
        && rung >= |old(log)|
        && (honest && PollContextValid(info) && old(FailureBefore(|log|)) ==> FailedWith(status))
        && (honest && PollContextValid(info) && old(|log| == completed && !FailureBefore(|log|)) ==>
              status == if info.eidAddr == 0 then STATUS_INVALID else STATUS_SUCCESS)
    {
      status := ValidatePostSend(a);
      if status == STATUS_SQ_FULL && ringDoorbell {
        var reclaimStatus := Reclaim();
        if reclaimStatus != STATUS_SUCCESS {
          return reclaimStatus;
        }
        status := ValidatePostSend(a);
      }
      if status != STATUS_SUCCESS {
        return status;
      }
      if info.eidAddr == 0 {
        return STATUS_INVALID;
      }
      Commit(EntryFor(a, head), ringDoorbell);
      return STATUS_SUCCESS;
    }

    /** Append an entry and, unless it is deferred, ring the doorbell, with hardware active in between. */
    method Commit(wqe: Wqe, ringDoorbell: bool)
      requires Valid() && posted - freed + BbCount(wqe.opcode) <= SQ_BB_COUNT
      requires wqe.bbIdx == head % SQ_BB_COUNT && wqe.owner == (head / SQ_BB_COUNT % 2 == 0)
      modifies this
      ensures Valid() && log == old(log) + [wqe] && Consumer() == old(Consumer()) && old(outcomes) <= outcomes
      ensures rung == if ringDoorbell then |log| else old(rung)
    {
      Hardware();
      Append(wqe);
      Hardware();
      if ringDoorbell {
        RingDoorbell();
        Hardware();
      }
    }

    // Flushing and draining

    /** Expose deferred entries without posting. */
    method FlushQpDoorbell() returns (status: u32)
      requires Valid()
      modifies this`doorbell, this`rung
      ensures Valid()
      ensures status == if FlushContextValid(info) then STATUS_SUCCESS else STATUS_INVALID
      ensures status == STATUS_SUCCESS ==> rung == |log| && doorbell == head
      ensures status != STATUS_SUCCESS ==> rung == old(rung) && doorbell == old(doorbell)
    {
      if info.sqPtr == 0 || info.sq.headAddr == 0 || info.sq.tailAddr == 0 || info.sq.dbAddr == 0 ||
         info.sq.depth != SQ_BB_COUNT {
        return STATUS_INVALID;
      }
      WrappedDistance(posted, freed);
      if Sub32(head, tail) > info.sq.depth {
        return STATUS_INVALID;
      }
      RingDoorbell();
      return STATUS_SUCCESS;
    }

    /** Wait for everything posted so far: on success the queue is empty and every completion is polled. */
    method QuietStatusOnQp() returns (status: u32)
      requires Valid()
      modifies this`cq, this`completed, this`outcomes, this`fetchPosition, this`tail, this`cqTail,
        this`cqDoorbell, this`freed, this`reclaimed
      ensures Valid() && Reports(status) && old(outcomes) <= outcomes
      ensures honest && status == STATUS_SUCCESS ==>
        && reclaimed == completed == |log| && cqTail == wqeCnt && tail == head && freed == posted
        && forall n :: 0 <= n < |log| ==> outcomes[n].Succeeded()
      ensures honest && info.sq.wqeCntAddr != 0 && PollContextValid(info) ==>
        && status != STATUS_INVALID && (old(FailureBefore(|log|)) ==> FailedWith(status))
        && (old(|log| == completed && !FailureBefore(|log|)) ==> status == STATUS_SUCCESS)
    {
      if info.sq.wqeCntAddr == 0 {
        return STATUS_INVALID;
      }
      if honest {
        NoOverrun();
      }
      status := PollCQ(wqeCnt);
    }

    /** The position up to which everything is posted. */
    method CompletionFrontier() returns (frontier: u32)
      requires Valid()
      ensures frontier == if info.sq.headAddr == 0 then 0 else head
      ensures honest && info.sq.headAddr != 0 ==> EntryEnd(|log|, frontier)
    {
      if info.sq.headAddr == 0 {
        return 0;
      }
      return head;
    }

    /**
     Drain to a frontier. The three range checks accept exactly the frontiers
     that lie, as unbounded positions, between the tail and the head.
     */
    method DrainToFrontier(frontier: u32, ghost n: nat) returns (status: u32)
      requires Valid()
      modifies this`cq, this`completed, this`outcomes, this`fetchPosition, this`tail, this`cqTail,
        this`cqDoorbell, this`freed, this`reclaimed
      ensures Valid() && Reports(status) && old(outcomes) <= outcomes
      ensures status == STATUS_SUCCESS ==> tail == frontier && freed == old(freed) + Sub32(frontier, old(tail))
      ensures !Between(posted, old(freed), frontier) ==> status == STATUS_INVALID
      ensures freed - old(freed) <= Sub32(frontier, old(tail))
      ensures honest && EntryEnd(n, frontier) && old(reclaimed) <= n && PollContextValid(info) ==>
        && status != STATUS_INVALID && (status == STATUS_SUCCESS ==> reclaimed == n)
        && (old(FailureBefore(n)) ==> FailedWith(status))
        && (old(n <= completed && !FailureBefore(n)) ==> status == STATUS_SUCCESS)
    {
      if info.scqPtr == 0 || info.sq.headAddr == 0 || info.sq.tailAddr == 0 || info.sq.depth != SQ_BB_COUNT {
        return STATUS_INVALID;
      }
      FrontierBetween(posted, freed, frontier);
      if honest && EntryEnd(n, frontier) && reclaimed <= n {
        BlocksGrow(log, reclaimed, n);
        BlocksGrow(log, n, |log|);
        assert Between(posted, freed, frontier);
      }
      if !InRange(head, tail, frontier) {
        return STATUS_INVALID;
      }
      status := PollCQUntilSqTail(frontier, n);
    }
  }

  // Runs

  datatype Action =
    | Post(args: PostArgs, ringDoorbell: bool)
    | Flush
    | Poll(idx: u32)
    | Quiet
    | QuietUntil(frontier: u32)
    | Idle

  /**
   Any run of posts, flushes, polls and drains, with hardware active throughout,
   keeps the rings a faithful image of an append-only log; with honest hardware no
   entry is ever reclaimed that did not complete without an error.
   */
  method Run(qp: QueuePair, script: seq<Action>)
    requires qp.Valid()
    modifies qp
    ensures qp.Valid() && old(qp.log) <= qp.log && old(qp.outcomes) <= qp.outcomes
    ensures qp.honest ==> qp.reclaimed <= |qp.outcomes| && qp.AllSucceeded()
  {
    for i := 0 to |script|
      invariant qp.Valid() && old(qp.log) <= qp.log && old(qp.outcomes) <= qp.outcomes
    {
      qp.Hardware();
      Act(qp, script[i]);
    }
  }

  method Act(qp: QueuePair, action: Action)
    requires qp.Valid()
    modifies qp
    ensures qp.Valid() && old(qp.log) <= qp.log && old(qp.outcomes) <= qp.outcomes
  {
    match action
    case Post(args, ringDoorbell) => var _ := qp.PostSend(args, ringDoorbell);
    case Flush => var _ := qp.FlushQpDoorbell();
    case Poll(idx) => var _ := qp.PollCQ(idx);
    case Quiet => var _ := qp.QuietStatusOnQp();
    case QuietUntil(frontier) => var _ := qp.DrainToFrontier(frontier, 0);
    case Idle =>
  }
}
