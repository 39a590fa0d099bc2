/**
 What holds of the plans of all ranks together. Every statement is about the
 plans returned for the same routing table on different ranks; how the tables
 behind them are computed does not appear in it.
 */
module PlanTheorems {
  import opened Sums
  import opened RouteCounts
  import opened Allocation
  import opened Layout
  import opened PlanTables
  import opened PlannerPhases
  import opened Planner
  import opened Wrappers

  // When planning succeeds

  /** S*K, the routes of one rank. */
  function Share(q: Request): int
  {
    q.tokensPerRank * q.topk
  }

  /** E/R, the experts of one rank. */
  function PerRank(q: Request): int
    requires q.rankSize > 0
  {
    q.expertCount / q.rankSize
  }

  function Slots(q: Request): int
    requires q.rankSize > 0
  {
    if q.prefetchSlots.Some? then q.prefetchSlots.value else PerRank(q)
  }

  /** NvS, the slots of one destination. */
  function BufferSlots(q: Request): int
    requires q.rankSize > 0
  {
    Share(q) + (q.tokenPadding - 1) * 2 * PerRank(q)
  }

  /** The requests that deserve a plan. */
  ghost predicate WellFormed(q: Request)
  {
    && q.rankSize > 0 && 0 <= q.rank < q.rankSize && q.tokensPerRank > 0 && q.topk > 0
    && q.expertCount > 0 && q.expertCount % q.rankSize == 0
    && 0 < Slots(q) <= PerRank(q) && q.tokenPadding > 0
    && |q.allTopk| == q.rankSize * Share(q)
    && q.rankSize * BufferSlots(q) <= INT32_RANGE
    && ValidRoutes(q.allTopk, q.expertCount)
  }

  lemma {:induction false} WellFormedValidates(q: Request)
    ensures WellFormed(q) <==> Validate(q).Ok? && ValidRoutes(q.allTopk, q.expertCount)
    ensures Validate(q).Ok? ==> var c := Validate(q).value;
      && c == Config(q.rankSize, PerRank(q), Share(q), Slots(q), q.tokenPadding)
      && c.Capacity() == BufferSlots(q)
  {
  }

  /**
   Planning succeeds on every well-formed request and on no other. The three
   internal errors, of the allocator, of the layout and of the destination
   search, are never returned.
   */
  lemma {:induction false} PlanOutcome(q: Request)
    ensures Plan(q).Ok? <==> WellFormed(q)
    ensures Plan(q).Err? ==>
      !Plan(q).error.AllocationExhausted? && !Plan(q).error.LayoutExceedsCapacity? && !Plan(q).error.DestinationNotFound?
  {
    WellFormedValidates(q);
    if WellFormed(q) {
      var table := SharedTable(q);
    }
  }

  /** The allocation that all ranks share, on which every layout fits and every route finds its destination. */
  lemma {:induction false} SharedTable(q: Request) returns (table: seq<seq<int>>)
    requires WellFormed(q)
    ensures Validate(q).Ok? && AllocationTable(Validate(q).value, q.allTopk) == Some(table)
    ensures Sound(Validate(q).value, q.allTopk, table) && Ready(Validate(q).value, q.allTopk, table)
    ensures Plan(q) == Ok(PlanFrom(Validate(q).value, q.rank, q.allTopk, table))
  {
    WellFormedValidates(q);
    var c, routes := Validate(q).value, q.allTopk;
    AllocationSound(c, routes);
    table := AllocationTable(c, routes).value;
    LayoutsFit(c, routes, table);
    RoutesFound(c, routes, table, q.rank);
  }

  lemma {:induction false} LayoutsFit(c: Config, routes: seq<int>, table: seq<seq<int>>)
    requires Sound(c, routes, table)
    ensures c.padding > 0 && forall d :: 0 <= d < c.ranks ==> LayoutEnd(c, table, d) <= c.Capacity()
  {
    forall d | 0 <= d < c.ranks
      ensures LayoutEnd(c, table, d) <= c.Capacity()
    {
      LayoutFitsAt(c, routes, table, d);
    }
  }

  lemma {:induction false} LayoutFitsAt(c: Config, routes: seq<int>, table: seq<seq<int>>, d: nat)
    requires Sound(c, routes, table) && d < c.ranks
    ensures c.padding > 0 && LayoutEnd(c, table, d) <= c.Capacity()
  {
    DestinationFits(c, routes, table, d);
  }

  lemma {:induction false} RoutesFound(c: Config, routes: seq<int>, table: seq<seq<int>>, rank: nat)
    requires Sound(c, routes, table) && rank < c.ranks
    ensures Ready(c, routes, table)
    ensures forall j :: 0 <= j < c.share ==> RouteDestination(table, routes, RouteIndex(c, rank, j)) < c.ranks
  {
    forall j | 0 <= j < c.share
      ensures RouteDestination(table, routes, RouteIndex(c, rank, j)) < c.ranks
    {
      RouteLands(c, routes, table, RouteIndex(c, rank, j));
    }
  }

  // The plans of all ranks

  /** The plan that rank `p` gets for the routing table of `q`. */
  ghost function PlanAt(q: Request, p: int): ReferencePlan
    requires WellFormed(q) && 0 <= p < q.rankSize
  {
    PlanOutcome(q.(rank := p));
    Plan(q.(rank := p)).value
  }

  lemma {:induction false} PlanAtIs(q: Request, p: int) returns (c: Config, table: seq<seq<int>>)
    requires WellFormed(q) && 0 <= p < q.rankSize
    ensures Validate(q) == Ok(c) && AllocationTable(c, q.allTopk) == Some(table)
    ensures Sound(c, q.allTopk, table) && Ready(c, q.allTopk, table) && c.Capacity() == BufferSlots(q)
    ensures PlanAt(q, p) == PlanFrom(c, p, q.allTopk, table)
    ensures |PlanAt(q, p).dst| == Share(q) && c.share == Share(q) && c.ranks == q.rankSize
  {
    WellFormedValidates(q);
    WellFormedValidates(q.(rank := p));
    c := Validate(q).value;
    table := SharedTable(q.(rank := p));
  }

  /** A number below `n * width` splits into a block and a place in it in only one way. */
  lemma {:induction false} SplitUnique(d: nat, x: nat, e: nat, y: nat, width: nat)
    requires x < width && y < width && d * width + x == e * width + y
    ensures d == e && x == y
  {
    BlockOf(d * width + x, d, width);
    BlockOf(d * width + x, e, width);
  }

  lemma {:induction false} SplitBound(d: nat, x: nat, n: nat, width: nat)
    requires x < width && d < n
    ensures 0 <= d * width + x < n * width
  {
    BlockWithin(d, width, n);
  }

  /** Route `j` of rank `p` has destination rank `d` and slot `x` there. */
  ghost predicate Lands(q: Request, p: int, j: int, d: int, x: int)
    requires WellFormed(q)
  {
    && 0 <= p < q.rankSize && 0 <= j < |PlanAt(q, p).dst| && 0 <= d < q.rankSize && 0 <= x < BufferSlots(q)
    && PlanAt(q, p).dst[j] == d * BufferSlots(q) + x
  }

  /** Encoded destinations decode: each names one rank and one slot of its buffer, within the signed 32-bit range. */
  lemma {:induction false} DestinationDecodes(q: Request, p: int, j: int) returns (d: int, x: int)
    requires WellFormed(q) && 0 <= p < q.rankSize && 0 <= j < Share(q)
    ensures Lands(q, p, j, d, x)
    ensures 0 <= PlanAt(q, p).dst[j] < q.rankSize * BufferSlots(q) <= INT32_RANGE
    ensures forall e, y :: Lands(q, p, j, e, y) ==> e == d && y == x
  {
    var c, table := PlanAtIs(q, p);
    var i := RouteIndex(c, p, j);
    SlotInBuffer(c, q.allTopk, table, i);
    d := RouteDestination(table, q.allTopk, i);
    x := RouteSlot(c, table, q.allTopk, i, d);
    SplitBound(d, x, q.rankSize, BufferSlots(q));
    forall e, y | Lands(q, p, j, e, y)
      ensures e == d && y == x
    {
      SplitUnique(d, x, e, y, BufferSlots(q));
    }
  }

  lemma {:induction false} DstInTables(q: Request, c: Config, table: seq<seq<int>>, p: int, j: int)
    requires WellFormed(q) && 0 <= p < q.rankSize && 0 <= j < Share(q)
    requires Validate(q) == Ok(c) && AllocationTable(c, q.allTopk) == Some(table)
    ensures c.ranks == q.rankSize && c.share == Share(q) && c.Capacity() == BufferSlots(q) && c.padding > 0
    ensures |PlanAt(q, p).dst| == Share(q) && Ready(c, q.allTopk, table) && Sound(c, q.allTopk, table)
    ensures PlanAt(q, p).dst[j] == Encoded(c, table, q.allTopk, RouteIndex(c, p, j))
  {
    var c', table' := PlanAtIs(q, p);
  }

  /** The tables' view of where a route lands is the plan's. */
  lemma {:induction false} LandsInTables(q: Request, c: Config, table: seq<seq<int>>, p: int, j: int, d: int, x: int)
    requires WellFormed(q) && 0 <= p < q.rankSize && 0 <= j < Share(q)
    requires Validate(q) == Ok(c) && AllocationTable(c, q.allTopk) == Some(table)
    requires Sound(c, q.allTopk, table) && c.share == Share(q) && c.ranks == q.rankSize
    ensures 0 <= q.allTopk[RouteIndex(c, p, j)] < |table|
    ensures Lands(q, p, j, d, x) <==>
      RouteDestination(table, q.allTopk, RouteIndex(c, p, j)) == d && d < c.ranks &&
      RouteSlot(c, table, q.allTopk, RouteIndex(c, p, j), d) == x
  {
    DstInTables(q, c, table, p, j);
    var i := RouteIndex(c, p, j);
    SlotInBuffer(c, q.allTopk, table, i);
    var e := RouteDestination(table, q.allTopk, i);
    EncodedSplits(e, RouteSlot(c, table, q.allTopk, i, e), d, x, BufferSlots(q));
  }

  lemma {:induction false} EncodedSplits(e: nat, y: nat, d: int, x: int, width: nat)
    requires y < width
    ensures 0 <= d && 0 <= x < width && e * width + y == d * width + x <==> d == e && x == y
  {
    if 0 <= d && 0 <= x < width && e * width + y == d * width + x {
      SplitUnique(d, x, e, y, width);
    }
  }

  /** No two routes, of whatever ranks, share a slot. */
  lemma {:induction false} DestinationsInjective(q: Request, p: int, j: int, p': int, j': int)
    requires WellFormed(q) && 0 <= p < q.rankSize && 0 <= p' < q.rankSize
    requires 0 <= j < Share(q) && 0 <= j' < Share(q)
    requires |PlanAt(q, p).dst| == |PlanAt(q, p').dst| == Share(q)
    requires PlanAt(q, p).dst[j] == PlanAt(q, p').dst[j']
    ensures p == p' && j == j'
  {
    var c, table := PlanAtIs(q, p);
    var d, x := DestinationDecodes(q, p, j);
    assert Lands(q, p', j', d, x);
    LandsInTables(q, c, table, p, j, d, x);
    LandsInTables(q, c, table, p', j', d, x);
    SlotInjective(c, q.allTopk, table, RouteIndex(c, p, j), RouteIndex(c, p', j'), d);
    SplitUnique(p, j, p', j', c.share);
  }

  // Buffers

  /** Some route of some rank lands in slot `x` of rank `d`. */
  ghost predicate Received(q: Request, d: int, x: int)
    requires WellFormed(q)
  {
    exists p, j :: Lands(q, p, j, d, x)
  }

  /** Zero-fill range `g` of the plan of rank `d` covers slot `x`. */
  ghost predicate Clears(q: Request, d: int, g: int, x: int)
    requires WellFormed(q) && 0 <= d < q.rankSize
  {
    var ranges := PlanAt(q, d).zeroFillRanges;
    0 <= g && 2 * g + 1 < |ranges| && ranges[2 * g] <= x < ranges[2 * g] + ranges[2 * g + 1]
  }

  lemma {:induction false} RangeInTables(c: Config, table: seq<seq<int>>, d: nat, g: int, x: int)
    requires c.padding > 0
    ensures var ranges := Alternate(ZeroFills(c, table, d));
      (0 <= g && 2 * g + 1 < |ranges| && ranges[2 * g] <= x < ranges[2 * g] + ranges[2 * g + 1]) <==>
      InZero(Groups(c, table, d), c.padding, c.Capacity(), g, x)
  {
    var fills := ZeroFills(c, table, d);
    if 0 <= g < |fills| {
      assert Alternate(fills)[2 * g] == fills[g].0 && Alternate(fills)[2 * g + 1] == fills[g].1;
    }
  }

  lemma {:induction false} ClearsInTables(q: Request, c: Config, table: seq<seq<int>>, d: int, g: int, x: int)
    requires WellFormed(q) && 0 <= d < q.rankSize
    requires Validate(q) == Ok(c) && AllocationTable(c, q.allTopk) == Some(table)
    ensures Clears(q, d, g, x) <==> InZero(Groups(c, table, d), c.padding, c.Capacity(), g, x)
  {
    var c', table' := PlanAtIs(q, d);
    RangeInTables(c, table, d, g, x);
  }

  /** Slot `x` is received exactly when it lies in the routed part of some group. */
  lemma {:induction false} ReceivedInTables(q: Request, c: Config, table: seq<seq<int>>, d: int, x: int)
    requires WellFormed(q) && 0 <= d < q.rankSize && 0 <= x < BufferSlots(q)
    requires Validate(q) == Ok(c) && AllocationTable(c, q.allTopk) == Some(table)
    requires Sound(c, q.allTopk, table) && c.share == Share(q) && c.ranks == q.rankSize
    ensures Received(q, d, x) <==> exists g :: InReal(Groups(c, table, d), c.padding, g, x)
  {
    if Received(q, d, x) {
      var p, j :| Lands(q, p, j, d, x);
      var c', table' := PlanAtIs(q, p);
      LandsInTables(q, c, table, p, j, d, x);
      RouteLands(c, q.allTopk, table, RouteIndex(c, p, j));
    }
    if g :| InReal(Groups(c, table, d), c.padding, g, x) {
      var i := SlotFilled(c, q.allTopk, table, d, g, x);
      var p, j := Locate(i, c.ranks, c.share);
      assert i == RouteIndex(c, p, j);
      LandsInTables(q, c, table, p, j, d, x);
    }
  }

  /**
   At every rank the received slots and the zero-fill ranges partition the
   buffer: a slot is received from some route exactly when no range clears it.
   */
  lemma {:induction false} BufferPartition(q: Request, d: int, x: int)
    requires WellFormed(q) && 0 <= d < q.rankSize && 0 <= x < BufferSlots(q)
    ensures Received(q, d, x) <==> !exists g :: Clears(q, d, g, x)
  {
    var c, table := PlanAtIs(q, d);
    ReceivedInTables(q, c, table, d, x);
    DestinationFits(c, q.allTopk, table, d);
    var g := SlotPartition(Groups(c, table, d), c.padding, c.Capacity(), x);
    ClearsInTables(q, c, table, d, g, x);
    forall h
      ensures Clears(q, d, h, x) ==> h == g
    {
      ClearsInTables(q, c, table, d, h, x);
    }
  }

  /** Zero-fill ranges do not overlap and stay inside the buffer. */
  lemma {:induction false} RangesDisjoint(q: Request, d: int, g: int, h: int, x: int)
    requires WellFormed(q) && 0 <= d < q.rankSize && Clears(q, d, g, x) && Clears(q, d, h, x)
    ensures g == h && 0 <= x < BufferSlots(q)
  {
    var c, table := PlanAtIs(q, d);
    DestinationFits(c, q.allTopk, table, d);
    ClearsInTables(q, c, table, d, g, x);
    ClearsInTables(q, c, table, d, h, x);
    SpanInBuffer(Groups(c, table, d), c.padding, c.Capacity(), g, x);
    var k := SlotPartition(Groups(c, table, d), c.padding, c.Capacity(), x);
  }

  // Groups and copies

  /** Entry `s` of row `d` of a list of rows of equal width. */
  function EntryAt(list: seq<int>, width: int, d: int, s: int): int
  {
    if 0 <= d * width + s < |list| then list[d * width + s] else -1
  }

  lemma {:induction false} CopyEntry(c: Config, table: seq<seq<int>>, n: nat, d: nat, s: nat)
    requires d < n && s < c.slots
    ensures 0 <= d * c.slots + s < |CopyList(c, table, n)|
    ensures EntryAt(CopyList(c, table, n), c.slots, d, s) == Copies(c, table, d)[s]
  {
    CopyListLength(c, table, n);
    CopyListLength(c, table, n - 1);
    SplitBound(d, s, n, c.slots);
    if d < n - 1 {
      CopyEntry(c, table, n - 1, d, s);
    }
  }

  lemma {:induction false} CopyListLength(c: Config, table: seq<seq<int>>, n: nat)
    ensures |CopyList(c, table, n)| == n * c.slots
  {
    if n > 0 {
      CopyListLength(c, table, n - 1);
      assert n * c.slots == (n - 1) * c.slots + c.slots;
    }
  }

  /** Row `d` of a list of rows of equal width. */
  function RowAt(list: seq<int>, width: nat, d: int): (row: seq<int>)
    ensures |row| == width
  {
    seq(width, s => EntryAt(list, width, d, s))
  }

  lemma {:induction false} CopyListRow(c: Config, table: seq<seq<int>>, n: nat, d: nat)
    requires d < n
    ensures RowAt(CopyList(c, table, n), c.slots, d) == Copies(c, table, d)
  {
    forall s | 0 <= s < c.slots
      ensures RowAt(CopyList(c, table, n), c.slots, d)[s] == Copies(c, table, d)[s]
    {
      CopyEntry(c, table, n, d, s);
    }
  }

  /** Row `d` of the list of copied experts in the plan of rank `d`. */
  ghost function CopyRowOf(q: Request, d: int): (row: seq<int>)
    requires WellFormed(q) && 0 <= d < q.rankSize
  {
    RowAt(PlanAt(q, d).expertsToCopy, Slots(q), d)
  }

  /** Slot `x` of rank `d` belongs to group `g` according to the group ends of its plan. */
  ghost predicate InGroup(q: Request, d: int, g: int, x: int)
    requires WellFormed(q) && 0 <= d < q.rankSize
  {
    var ends := PlanAt(q, d).cuSeqlens;
    0 <= g < |ends| && (if g == 0 then 0 else ends[g - 1]) <= x < ends[g]
  }

  /** The expert that group `g` of rank `d` computes: its own number, or the expert copied to its prefetch slot. */
  ghost function ExpertOfGroup(q: Request, d: int, g: int): int
    requires WellFormed(q) && 0 <= d < q.rankSize
  {
    var row := CopyRowOf(q, d);
    if g < q.expertCount then g else if g - q.expertCount < |row| then row[g - q.expertCount] else -1
  }

  lemma {:induction false} InGroupInTables(q: Request, c: Config, table: seq<seq<int>>, d: int, g: int, x: int)
    requires WellFormed(q) && 0 <= d < q.rankSize
    requires Validate(q) == Ok(c) && AllocationTable(c, q.allTopk) == Some(table)
    requires InReal(Groups(c, table, d), c.padding, g, x)
    ensures InGroup(q, d, g, x)
  {
    var c', table' := PlanAtIs(q, d);
    GroupStartStep(Groups(c, table, d), c.padding, g);
    assert PlanAt(q, d).cuSeqlens == GroupEnds(c, table, d);
  }

  lemma {:induction false} CopyRowOfIs(q: Request, c: Config, table: seq<seq<int>>, d: int)
    requires WellFormed(q) && 0 <= d < q.rankSize
    requires Validate(q) == Ok(c) && AllocationTable(c, q.allTopk) == Some(table)
    ensures CopyRowOf(q, d) == Copies(c, table, d) && |CopyRowOf(q, d)| == Slots(q)
  {
    CopiesOf(q, c, table, d);
    CopyListRow(c, table, c.ranks, d);
  }

  lemma {:induction false} CopiesOf(q: Request, c: Config, table: seq<seq<int>>, d: int)
    requires WellFormed(q) && 0 <= d < q.rankSize
    requires Validate(q) == Ok(c) && AllocationTable(c, q.allTopk) == Some(table)
    ensures PlanAt(q, d).expertsToCopy == CopyList(c, table, c.ranks) && c.slots == Slots(q) && c.ranks == q.rankSize
  {
    var c', table' := PlanAtIs(q, d);
    WellFormedValidates(q);
  }

  lemma {:induction false} TableSize(q: Request, c: Config, table: seq<seq<int>>)
    requires Validate(q) == Ok(c) && AllocationTable(c, q.allTopk) == Some(table)
    ensures |table| == q.expertCount
  {
  }

  lemma {:induction false} ExpertOfGroupInTables(q: Request, c: Config, table: seq<seq<int>>, d: int, e: nat)
    requires WellFormed(q) && 0 <= d < q.rankSize
    requires Validate(q) == Ok(c) && AllocationTable(c, q.allTopk) == Some(table) && e < |table|
    ensures ExpertOfGroup(q, d, GroupOf(|table|, Copies(c, table, d), e)) == e
  {
    TableSize(q, c, table);
    CopyRowOfIs(q, c, table, d);
    GroupNames(q, d, Copies(c, table, d), e);
  }

  lemma {:induction false} GroupNames(q: Request, d: int, copy: seq<int>, e: nat)
    requires WellFormed(q) && 0 <= d < q.rankSize && CopyRowOf(q, d) == copy && e < q.expertCount
    ensures ExpertOfGroup(q, d, GroupOf(q.expertCount, copy, e)) == e
  {
  }

  /** Every route lands in a group that computes the expert it was routed to. */
  lemma {:induction false} RouteMeetsItsExpert(q: Request, p: int, j: int, d: int, x: int) returns (g: int)
    requires WellFormed(q) && Lands(q, p, j, d, x)
    ensures InGroup(q, d, g, x)
    ensures 0 <= p * Share(q) + j < |q.allTopk| && ExpertOfGroup(q, d, g) == q.allTopk[p * Share(q) + j]
  {
    var c, table := PlanAtIs(q, p);
    LandsInTables(q, c, table, p, j, d, x);
    var i := RouteIndex(c, p, j);
    RouteLands(c, q.allTopk, table, i);
    g := GroupOf(|table|, Copies(c, table, d), q.allTopk[i]);
    InGroupInTables(q, c, table, d, g, x);
    ExpertOfGroupInTables(q, c, table, d, q.allTopk[i]);
  }

  // Group sizes

  function StartOfGroup(ends: seq<int>, g: int): int
    requires 0 <= g < |ends|
  {
    if g == 0 then 0 else ends[g - 1]
  }

  /** Group `g` of rank `d` receives `count` routes, in its first slots, and is padded to whole units. */
  ghost predicate GroupReceives(q: Request, d: int, g: int, count: int)
    requires WellFormed(q) && 0 <= d < q.rankSize && 0 <= g < |PlanAt(q, d).cuSeqlens|
  {
    var ends := PlanAt(q, d).cuSeqlens;
    && count >= 0 && ends[g] == StartOfGroup(ends, g) + Padded(count, q.tokenPadding) <= BufferSlots(q)
    && forall x :: StartOfGroup(ends, g) <= x < ends[g] ==>
      (Received(q, d, x) <==> x < StartOfGroup(ends, g) + count)
  }

  /** Inside a group's padded slots only the group itself can receive. */
  lemma {:induction false} RealInGroup(counts: seq<int>, padding: nat, capacity: int, g: nat, h: int, x: int)
    requires padding > 0 && Fits(counts, padding, capacity) && g < |counts|
    requires GroupStart(counts, padding, g) <= x < GroupStart(counts, padding, g + 1)
    requires InReal(counts, padding, h, x)
    ensures h == g
  {
    GroupStartMonotone(counts, padding, g + 1, |counts|);
    SpanSplits(counts, padding, capacity, h, x);
    SpanUnique(counts, padding, capacity, g, h, x);
  }

  lemma {:induction false} GroupSlot(q: Request, c: Config, table: seq<seq<int>>, d: int, g: nat, x: int)
    requires WellFormed(q) && 0 <= d < q.rankSize && g < |table| + c.slots && 0 <= x < BufferSlots(q)
    requires Validate(q) == Ok(c) && AllocationTable(c, q.allTopk) == Some(table)
    requires Sound(c, q.allTopk, table) && Fits(Groups(c, table, d), c.padding, c.Capacity())
    requires c.share == Share(q) && c.ranks == q.rankSize
    requires GroupStart(Groups(c, table, d), c.padding, g) <= x < GroupStart(Groups(c, table, d), c.padding, g + 1)
    ensures Received(q, d, x) <==> InReal(Groups(c, table, d), c.padding, g, x)
  {
    ReceivedInTables(q, c, table, d, x);
    if h :| InReal(Groups(c, table, d), c.padding, h, x) {
      RealInGroup(Groups(c, table, d), c.padding, c.Capacity(), g, h, x);
    }
  }

  /** The group ends say where each group starts and ends. */
  lemma {:induction false} EndsAre(c: Config, table: seq<seq<int>>, d: nat, g: nat)
    requires c.padding > 0 && g < |table| + c.slots && Fits(Groups(c, table, d), c.padding, c.Capacity())
    ensures var counts, ends := Groups(c, table, d), GroupEnds(c, table, d);
      && |ends| == |table| + c.slots && counts[g] >= 0
      && StartOfGroup(ends, g) == GroupStart(counts, c.padding, g) >= 0
      && ends[g] == GroupStart(counts, c.padding, g + 1) == StartOfGroup(ends, g) + Padded(counts[g], c.padding)
      && ends[g] <= c.Capacity()
  {
    var counts := Groups(c, table, d);
    GroupStartStep(counts, c.padding, g);
    GroupStartMonotone(counts, c.padding, 0, g);
    GroupStartMonotone(counts, c.padding, g + 1, |counts|);
  }

  lemma {:induction false} GroupReceivesInTables(q: Request, c: Config, table: seq<seq<int>>, d: int, g: nat)
    requires WellFormed(q) && 0 <= d < q.rankSize && g < |table| + c.slots
    requires Validate(q) == Ok(c) && AllocationTable(c, q.allTopk) == Some(table)
    requires Sound(c, q.allTopk, table) && Fits(Groups(c, table, d), c.padding, c.Capacity())
    requires |PlanAt(q, d).cuSeqlens| == |table| + c.slots
    requires PlanAt(q, d).cuSeqlens == GroupEnds(c, table, d) && c.padding == q.tokenPadding
    requires c.share == Share(q) && c.ranks == q.rankSize && c.Capacity() == BufferSlots(q)
    ensures GroupReceives(q, d, g, Groups(c, table, d)[g])
  {
    var counts, ends := Groups(c, table, d), PlanAt(q, d).cuSeqlens;
    EndsAre(c, table, d, g);
    forall x | StartOfGroup(ends, g) <= x < ends[g]
      ensures Received(q, d, x) <==> x < StartOfGroup(ends, g) + counts[g]
    {
      GroupSlot(q, c, table, d, g, x);
    }
  }

  /**
   Every rank receives exactly S*K routes. Its cu_seqlens cut the buffer into one
   group per expert and prefetch slot, each with its routes in front and padded to
   the least whole number of units.
   */
  lemma {:induction false} RankReceivesShare(q: Request, d: int) returns (counts: seq<int>)
    requires WellFormed(q) && 0 <= d < q.rankSize
    ensures |counts| == |PlanAt(q, d).cuSeqlens| == q.expertCount + Slots(q) && Sum(counts) == Share(q)
    ensures forall g :: 0 <= g < |counts| ==> GroupReceives(q, d, g, counts[g])
  {
    var c, table := PlanAtIs(q, d);
    TableSize(q, c, table);
    CopiesOf(q, c, table, d);
    DestinationFits(c, q.allTopk, table, d);
    counts := Groups(c, table, d);
    ByGroupSum(Column(table, d), Copies(c, table, d));
    ColumnOfShare(c, q.allTopk, table, d);
    WellFormedValidates(q);
    forall g | 0 <= g < |counts|
      ensures GroupReceives(q, d, g, counts[g])
    {
      GroupReceivesInTables(q, c, table, d, g);
    }
  }

  lemma {:induction false} ColumnOfShare(c: Config, routes: seq<int>, table: seq<seq<int>>, d: nat)
    requires Sound(c, routes, table) && d < c.ranks
    ensures Sum(Column(table, d)) == c.share
  {
  }

  // The order of slots

  /** The routes of one expert go to the ranks in table order, and to the slots of a rank in table order. */
  lemma {:induction false} SlotsFollow(
    c: Config, routes: seq<int>, table: seq<seq<int>>, i: nat, i': nat, d: nat, d': nat)
    requires Sound(c, routes, table) && i <= i' < |routes| && routes[i] == routes[i'] && 0 <= routes[i] < |table|
    requires RouteDestination(table, routes, i) == d && RouteDestination(table, routes, i') == d'
    requires d < c.ranks && d' < c.ranks
    ensures d <= d'
    ensures d == d' ==>
      RouteSlot(c, table, routes, i', d) ==
        RouteSlot(c, table, routes, i, d) + Occurrences(routes, i', routes[i]) - Occurrences(routes, i, routes[i])
  {
    RouteLands(c, routes, table, i);
    RouteLands(c, routes, table, i');
    OccurrencesMonotone(routes, i, i', routes[i]);
    if d' < d {
      SumPrefixMonotone(table[routes[i]], d' + 1, d);
    }
  }

  /** The position in the routing table of route `j` of rank `p`. */
  function Position(q: Request, p: int, j: int): int
  {
    p * Share(q) + j
  }

  /** Routes of the expert of route `i` from there up to position `i'`. */
  function RoutesBetween(q: Request, i: int, i': int): int
    requires 0 <= i <= i' < |q.allTopk|
  {
    Occurrences(q.allTopk, i', q.allTopk[i]) - Occurrences(q.allTopk, i, q.allTopk[i])
  }

  lemma {:induction false} LandsAt(q: Request, c: Config, table: seq<seq<int>>, p: int, j: int, d: int, x: int)
    requires WellFormed(q) && Lands(q, p, j, d, x)
    requires Validate(q) == Ok(c) && AllocationTable(c, q.allTopk) == Some(table) && Sound(c, q.allTopk, table)
    ensures 0 <= Position(q, p, j) < |q.allTopk| && 0 <= q.allTopk[Position(q, p, j)] < |table| && d < c.ranks
    ensures RouteDestination(table, q.allTopk, Position(q, p, j)) == d
    ensures RouteSlot(c, table, q.allTopk, Position(q, p, j), d) == x
  {
    var c', table' := PlanAtIs(q, p);
    LandsInTables(q, c, table, p, j, d, x);
    assert RouteIndex(c, p, j) == Position(q, p, j);
  }

  /**
   Of two routes of one expert, the one further down the routing table goes to the
   same rank or a later one. If both go to the same rank, their slots are as far
   apart as there are routes of the expert from the first up to the second.
   */
  lemma {:induction false} RoutesInOrder(
    q: Request, p: int, j: int, d: int, x: int, p': int, j': int, d': int, x': int)
    requires WellFormed(q) && Lands(q, p, j, d, x) && Lands(q, p', j', d', x')
    requires 0 <= Position(q, p, j) <= Position(q, p', j') < |q.allTopk|
    requires q.allTopk[Position(q, p, j)] == q.allTopk[Position(q, p', j')]
    ensures d <= d'
    ensures d == d' ==> x' == x + RoutesBetween(q, Position(q, p, j), Position(q, p', j'))
  {
    var c, table := PlanAtIs(q, p);
    LandsAt(q, c, table, p, j, d, x);
    LandsAt(q, c, table, p', j', d', x');
    SlotsFollow(c, q.allTopk, table, Position(q, p, j), Position(q, p', j'), d, d');
  }

  /** No earlier route of the same expert lands at `d`. */
  ghost predicate FirstAt(q: Request, p: int, j: int, d: int)
    requires WellFormed(q) && 0 <= Position(q, p, j) < |q.allTopk|
  {
    forall p', j', x' :: Lands(q, p', j', d, x') && 0 <= Position(q, p', j') < Position(q, p, j) ==>
      q.allTopk[Position(q, p', j')] != q.allTopk[Position(q, p, j)]
  }

  /** An occurrence that is not the first of its expert's part at `d` follows another one there. */
  lemma {:induction false} Predecessor(c: Config, routes: seq<int>, table: seq<seq<int>>, i: nat, d: nat)
    returns (k: nat)
    requires Sound(c, routes, table) && i < |routes| && 0 <= routes[i] < |table| && d < c.ranks
    requires RouteDestination(table, routes, i) == d && Sum(table[routes[i]][..d]) < Occurrences(routes, i, routes[i])
    ensures k < i && routes[k] == routes[i] && RouteDestination(table, routes, k) == d
  {
    var e := routes[i];
    RouteLands(c, routes, table, i);
    SumPrefixMonotone(table[e], 0, d);
    var g := Occurrences(routes, i, e) - 1;
    k := OccurrenceExists(routes, i, e, g);
    DestinationIs(table[e], g, 0, d);
  }

  lemma {:induction false} LandingOf(q: Request, c: Config, table: seq<seq<int>>, k: nat, d: int)
    returns (p: int, j: int)
    requires WellFormed(q) && 0 <= d < q.rankSize && k < |q.allTopk| && c.share == Share(q) && c.ranks == q.rankSize
    requires Validate(q) == Ok(c) && AllocationTable(c, q.allTopk) == Some(table) && Sound(c, q.allTopk, table)
    requires 0 <= q.allTopk[k] < |table| && RouteDestination(table, q.allTopk, k) == d
    ensures Position(q, p, j) == k && Lands(q, p, j, d, RouteSlot(c, table, q.allTopk, k, d))
  {
    p, j := Locate(k, c.ranks, c.share);
    assert RouteIndex(c, p, j) == k;
    LandsInTables(q, c, table, p, j, d, RouteSlot(c, table, q.allTopk, k, d));
  }

  /** The first route of an expert at a rank takes the first slot of the group that computes the expert. */
  lemma {:induction false} FirstRouteFirstSlot(q: Request, p: int, j: int, d: int, x: int) returns (g: int)
    requires WellFormed(q) && Lands(q, p, j, d, x)
    requires 0 <= Position(q, p, j) < |q.allTopk| && FirstAt(q, p, j, d)
    ensures InGroup(q, d, g, x) && ExpertOfGroup(q, d, g) == q.allTopk[Position(q, p, j)]
    ensures x == StartOfGroup(PlanAt(q, d).cuSeqlens, g)
  {
    var c, table := PlanAtIs(q, p);
    LandsAt(q, c, table, p, j, d, x);
    var i := Position(q, p, j);
    if Sum(table[q.allTopk[i]][..d]) < Occurrences(q.allTopk, i, q.allTopk[i]) {
      var k := Predecessor(c, q.allTopk, table, i, d);
      var p', j' := LandingOf(q, c, table, k, d);
      assert false;
    }
    g := FirstInTables(q, c, table, i, d, x);
  }

  lemma {:induction false} FirstInTables(q: Request, c: Config, table: seq<seq<int>>, i: nat, d: int, x: int)
    returns (g: int)
    requires WellFormed(q) && 0 <= d < q.rankSize && i < |q.allTopk|
    requires Validate(q) == Ok(c) && AllocationTable(c, q.allTopk) == Some(table) && Sound(c, q.allTopk, table)
    requires 0 <= q.allTopk[i] < |table| && RouteDestination(table, q.allTopk, i) == d && d < c.ranks
    requires x == RouteSlot(c, table, q.allTopk, i, d)
    requires Occurrences(q.allTopk, i, q.allTopk[i]) <= Sum(table[q.allTopk[i]][..d])
    ensures InGroup(q, d, g, x) && ExpertOfGroup(q, d, g) == q.allTopk[i]
    ensures x == StartOfGroup(PlanAt(q, d).cuSeqlens, g)
  {
    var e := q.allTopk[i];
    RouteLands(c, q.allTopk, table, i);
    g := GroupOf(|table|, Copies(c, table, d), e);
    InGroupInTables(q, c, table, d, g, x);
    ExpertOfGroupInTables(q, c, table, d, e);
    DestinationFits(c, q.allTopk, table, d);
    EndsAre(c, table, d, g);
    var c', table' := PlanAtIs(q, d);
    assert PlanAt(q, d).cuSeqlens == GroupEnds(c, table, d);
  }
}
