/**
 The tables every rank derives from the gathered routing table, and the slot that
 they assign to each route. All ranks compute the same tables; a rank's plan is
 the part of them that concerns its own routes and its own buffer.
 */
module PlanTables {
  import opened Sums
  import opened RouteCounts
  import opened Balance
  import opened Allocation
  import opened Layout
  import opened Wrappers

  /** `share` is S*K, the routes of one source rank and of one destination rank. */
  datatype Config = Config(ranks: nat, perRank: nat, share: nat, slots: nat, padding: nat)
  {
    predicate Valid()
    {
      ranks > 0 && perRank > 0 && share > 0 && 0 < slots <= perRank && padding > 0
    }

    function Experts(): nat
    {
      ranks * perRank
    }

    /** NvS, the slots of one destination buffer. */
    function Capacity(): nat
      requires padding > 0
    {
      share + (padding - 1) * 2 * perRank
    }
  }

  /** A routing table for `c`: every rank routes its share, to existing experts. */
  ghost predicate Routing(c: Config, routes: seq<int>)
  {
    c.Valid() && |routes| == c.ranks * c.share && ValidRoutes(routes, c.Experts())
  }

  // Tables

  function Moves(c: Config, routes: seq<int>): (moves: seq<seq<int>>)
    requires c.Valid()
    ensures IsTable(moves, c.ranks, c.ranks)
  {
    Settle(Start(InitialBalance(Histogram(routes, c.Experts()), c.ranks, c.perRank, c.share))).moves
  }

  function AllocationTable(c: Config, routes: seq<int>): (table: Option<seq<seq<int>>>)
    requires c.Valid()
    ensures table.Some? ==> IsTable(table.value, c.Experts(), c.ranks)
  {
    Allocate(Histogram(routes, c.Experts()), Moves(c, routes), c.perRank, c.ranks)
  }

  /** Remote experts of destination `d`, most routes first. */
  function Remote(c: Config, table: seq<seq<int>>, d: nat): seq<int>
  {
    SortByLoad(Column(table, d), RemoteExperts(Column(table, d), d * c.perRank, c.perRank, |table|))
  }

  lemma {:induction false} RemoteAre(c: Config, table: seq<seq<int>>, d: nat)
    ensures Ranked(Column(table, d), Remote(c, table, d)) && Distinct(Remote(c, table, d))
    ensures forall e :: e in Remote(c, table, d) <==> IsRemote(Column(table, d), d * c.perRank, c.perRank, e)
    ensures forall i :: 0 <= i < |Remote(c, table, d)| ==> 0 <= Remote(c, table, d)[i] < |table|
    ensures ValidCopy(Copies(c, table, d), |table|)
  {
    var load := Column(table, d);
    var unsorted := RemoteExperts(load, d * c.perRank, c.perRank, |table|);
    var remote := Remote(c, table, d);
    RemoteExpertsAre(load, d * c.perRank, c.perRank, |table|);
    SortByLoadSorts(load, unsorted);
    forall i | 0 <= i < |remote|
      ensures 0 <= remote[i] < |table|
    {
      assert remote[i] in remote;
    }
    forall i, j | 0 <= i < j < |remote|
      ensures remote[i] != remote[j]
    {
      assert Precedes(load, remote[i], remote[j]);
    }
    CopyRowValid(load, remote, c.slots);
  }

  function Copies(c: Config, table: seq<seq<int>>, d: nat): (copy: seq<int>)
    ensures |copy| == c.slots
  {
    CopyRow(Remote(c, table, d), c.slots)
  }

  /** Routes in every group of destination `d`. */
  function Groups(c: Config, table: seq<seq<int>>, d: nat): (counts: seq<int>)
    ensures |counts| == |table| + c.slots
  {
    ByGroup(Column(table, d), Copies(c, table, d))
  }

  function LayoutEnd(c: Config, table: seq<seq<int>>, d: nat): int
    requires c.padding > 0
  {
    GroupStart(Groups(c, table, d), c.padding, |table| + c.slots)
  }

  /** Where the routes of expert `e` start in the buffer of destination `d`. */
  function Offset(c: Config, table: seq<seq<int>>, d: nat, e: nat): int
    requires c.padding > 0 && e < |table|
  {
    if Column(table, d)[e] > 0
    then GroupStart(Groups(c, table, d), c.padding, GroupOf(|table|, Copies(c, table, d), e))
    else 0
  }

  // Routes

  /** The first rank, from `d` on, whose share of the expert reaches past occurrence `g`. */
  function Destination(row: seq<int>, g: int, d: nat): (r: nat)
    requires d <= |row|
    ensures d <= r <= |row|
    decreases |row| - d
  {
    if d < |row| && Sum(row[..d + 1]) <= g then Destination(row, g, d + 1) else d
  }

  function RouteDestination(table: seq<seq<int>>, routes: seq<int>, i: nat): nat
    requires i < |routes| && 0 <= routes[i] < |table|
  {
    Destination(table[routes[i]], Occurrences(routes, i, routes[i]), 0)
  }

  /** The slot of route `i` in the buffer of destination `d`. */
  function RouteSlot(c: Config, table: seq<seq<int>>, routes: seq<int>, i: nat, d: nat): int
    requires c.padding > 0 && i < |routes| && 0 <= routes[i] < |table| && d <= |table[routes[i]]|
  {
    Offset(c, table, d, routes[i]) + Occurrences(routes, i, routes[i]) - Sum(table[routes[i]][..d])
  }

  /** The encoded destination: destination rank and slot in one number. */
  function Encoded(c: Config, table: seq<seq<int>>, routes: seq<int>, i: nat): int
    requires c.padding > 0 && i < |routes| && 0 <= routes[i] < |table|
  {
    var d := RouteDestination(table, routes, i);
    d * c.Capacity() + RouteSlot(c, table, routes, i, d)
  }

  // The allocation of a routing table

  lemma {:induction false} OwnedSum(counts: seq<int>, ranks: nat, perRank: nat, owned: seq<int>)
    requires |counts| == ranks * perRank && |owned| == ranks
    requires forall h :: 0 <= h < ranks ==> owned[h] == Owned(counts, ranks, perRank, h)
    ensures Sum(owned) == Sum(counts)
  {
    forall h | 0 <= h < ranks
      ensures BlockFits(h, perRank, |counts|) && owned[h] == Sum(Block(counts, h, perRank))
    {
      BlockWithin(h, perRank, ranks);
    }
    SumBlocks(counts, perRank, owned);
  }

  lemma {:induction false} OwnedTotal(counts: seq<int>, ranks: nat, perRank: nat, share: int)
    requires |counts| == ranks * perRank
    ensures Sum(InitialBalance(counts, ranks, perRank, share)) == Sum(counts) - ranks * share
  {
    var owned := InitialBalance(counts, ranks, perRank, 0);
    OwnedSum(counts, ranks, perRank, owned);
    SumShift(owned, InitialBalance(counts, ranks, perRank, share), share);
  }

  /** The balance of a routing table adds up to zero, and no rank lacks more than its share. */
  lemma {:induction false} BalanceConserved(c: Config, routes: seq<int>)
    requires Routing(c, routes)
    ensures Conserved(InitialBalance(Histogram(routes, c.Experts()), c.ranks, c.perRank, c.share), c.share)
  {
    var counts := Histogram(routes, c.Experts());
    HistogramTotal(routes, c.Experts());
    OwnedTotal(counts, c.ranks, c.perRank, c.share);
    forall h | 0 <= h < c.ranks
      ensures Owned(counts, c.ranks, c.perRank, h) >= 0
    {
      BlockWithin(h, c.perRank, c.ranks);
      SumNonNegative(Block(counts, h, c.perRank));
    }
  }

  /** Everything the layout and the encoding need to know about the allocation. */
  ghost predicate Sound(c: Config, routes: seq<int>, table: seq<seq<int>>)
  {
    && Routing(c, routes)
    && Allocated(table, Histogram(routes, c.Experts()), Moves(c, routes), c.perRank, c.share)
    && SingleDonor(Moves(c, routes), c.ranks)
  }

  /** Migration never runs out of routes, and the allocation has all the properties the design counts on. */
  lemma {:induction false} AllocationSound(c: Config, routes: seq<int>)
    requires Routing(c, routes)
    ensures AllocationTable(c, routes).Some? && Sound(c, routes, AllocationTable(c, routes).value)
  {
    var counts := Histogram(routes, c.Experts());
    BalanceConserved(c, routes);
    BalancerGuarantee(InitialBalance(counts, c.ranks, c.perRank, c.share), c.share);
    AllocationGuarantee(counts, Moves(c, routes), c.perRank, c.share);
  }

  // Destination buffers

  lemma {:induction false} TwoIntervals(c: Config, routes: seq<int>, table: seq<seq<int>>, d: nat)
    returns (donor: nat)
    requires Sound(c, routes, table) && d < c.ranks
    ensures Bringing(Column(table, d)) <=
      Interval(d * c.perRank, c.perRank) + Interval(donor * c.perRank, c.perRank)
    ensures forall e :: e in Remote(c, table, d) ==> e in Interval(donor * c.perRank, c.perRank)
  {
    RemoteAre(c, table, d);
    donor := TwoHomes(table, Histogram(routes, c.Experts()), Moves(c, routes), c.perRank, c.share, d);
    forall e | 0 <= e < |table| && table[e][d] > 0
      ensures e in Interval(d * c.perRank, c.perRank) || e in Interval(donor * c.perRank, c.perRank)
    {
      BlockOf(e, d, c.perRank);
      BlockOf(e, donor, c.perRank);
    }
  }

  /** A rank hosts at most E/R remote experts. */
  lemma {:induction false} RemoteBound(c: Config, routes: seq<int>, table: seq<seq<int>>, d: nat)
    requires Sound(c, routes, table) && d < c.ranks
    ensures |Remote(c, table, d)| <= c.perRank
  {
    var donor := TwoIntervals(c, routes, table, d);
    RemoteAre(c, table, d);
    DistinctCard(Remote(c, table, d), Interval(donor * c.perRank, c.perRank));
  }

  lemma {:induction false} LoadFits(c: Config, table: seq<seq<int>>, d: nat, donor: nat)
    requires c.padding > 0 && Sum(Column(table, d)) == c.share
    requires forall e :: 0 <= e < |table| ==> Column(table, d)[e] >= 0
    requires Bringing(Column(table, d)) <=
      Interval(d * c.perRank, c.perRank) + Interval(donor * c.perRank, c.perRank)
    requires |table| > 0
    ensures ValidCopy(Copies(c, table, d), |table|)
    ensures Fits(Groups(c, table, d), c.padding, c.Capacity())
  {
    var load, copy := Column(table, d), Copies(c, table, d);
    RemoteAre(c, table, d);
    LayoutFits(load, copy, c.padding, c.perRank, d * c.perRank, donor * c.perRank);
  }

  /** The padded layout of every destination fits its buffer. */
  lemma {:induction false} DestinationFits(c: Config, routes: seq<int>, table: seq<seq<int>>, d: nat)
    requires Sound(c, routes, table) && d < c.ranks
    ensures ValidCopy(Copies(c, table, d), |table|)
    ensures Fits(Groups(c, table, d), c.padding, c.Capacity())
  {
    var donor := TwoIntervals(c, routes, table, d);
    MulMonotone(1, c.ranks, c.perRank);
    LoadFits(c, table, d, donor);
  }

  // Every route has a slot of its own

  /** The destination search finds the rank whose part of the expert holds occurrence `g`. */
  lemma {:induction false} DestinationFound(row: seq<int>, g: int, d: nat)
    requires d <= |row| && Sum(row[..d]) <= g < Sum(row)
    ensures var r := Destination(row, g, d); r < |row| && Sum(row[..r]) <= g < Sum(row[..r + 1])
    decreases |row| - d
  {
    if d == |row| {
      SumAll(row);
    } else if Sum(row[..d + 1]) <= g {
      DestinationFound(row, g, d + 1);
    }
  }

  lemma {:induction false} DestinationIs(row: seq<int>, g: int, d: nat, r: nat)
    requires d <= r < |row| && Sum(row[..r]) <= g < Sum(row[..r + 1])
    requires forall k :: 0 <= k < |row| ==> row[k] >= 0
    ensures Destination(row, g, d) == r
    decreases r - d
  {
    if d < r {
      SumPrefixMonotone(row, d + 1, r);
      DestinationIs(row, g, d + 1, r);
    }
  }

  /** Expert `e` has `table[e][d]` slots at `d`, all in one group. */
  lemma {:induction false} ExpertGroup(c: Config, table: seq<seq<int>>, d: nat, e: nat, x: int)
    requires c.padding > 0 && e < |table| && d < |table[e]| && table[e][d] > 0
    ensures var counts, g := Groups(c, table, d), GroupOf(|table|, Copies(c, table, d), e);
      && counts[g] == table[e][d]
      && (InReal(counts, c.padding, g, x) <==>
            Offset(c, table, d, e) <= x < Offset(c, table, d, e) + table[e][d])
  {
  }

  /** Route `i` finds a destination, and its slot there is a received slot of its expert's group. */
  lemma {:induction false} RouteLands(c: Config, routes: seq<int>, table: seq<seq<int>>, i: nat)
    requires Sound(c, routes, table) && i < |routes|
    ensures 0 <= routes[i] < |table|
    ensures var d := RouteDestination(table, routes, i);
      && d < c.ranks
      && Sum(table[routes[i]][..d]) <= Occurrences(routes, i, routes[i]) < Sum(table[routes[i]][..d + 1])
      && table[routes[i]][d] > 0
      && InReal(Groups(c, table, d), c.padding, GroupOf(|table|, Copies(c, table, d), routes[i]),
                RouteSlot(c, table, routes, i, d))
  {
    var e := routes[i];
    OccurrencesMonotone(routes, i, |routes|, e);
    var d := RouteDestination(table, routes, i);
    DestinationFound(table[e], Occurrences(routes, i, e), 0);
    SumTake(table[e], d);
    ExpertGroup(c, table, d, e, RouteSlot(c, table, routes, i, d));
  }

  lemma {:induction false} SlotInBuffer(c: Config, routes: seq<int>, table: seq<seq<int>>, i: nat)
    requires Sound(c, routes, table) && i < |routes|
    ensures 0 <= routes[i] < |table| && RouteDestination(table, routes, i) < c.ranks
    ensures 0 <= RouteSlot(c, table, routes, i, RouteDestination(table, routes, i)) < c.Capacity()
  {
    RouteLands(c, routes, table, i);
    var d := RouteDestination(table, routes, i);
    DestinationFits(c, routes, table, d);
    SpanInBuffer(Groups(c, table, d), c.padding, c.Capacity(), GroupOf(|table|, Copies(c, table, d), routes[i]),
                 RouteSlot(c, table, routes, i, d));
  }

  /** Two received slots of one destination coincide only for one route. */
  lemma {:induction false} SlotInjective(c: Config, routes: seq<int>, table: seq<seq<int>>, i: nat, j: nat, d: nat)
    requires Sound(c, routes, table) && i < |routes| && j < |routes|
    requires 0 <= routes[i] < |table| && 0 <= routes[j] < |table|
    requires RouteDestination(table, routes, i) == d && RouteDestination(table, routes, j) == d
    requires d <= c.ranks && RouteSlot(c, table, routes, i, d) == RouteSlot(c, table, routes, j, d)
    ensures i == j
  {
    RouteLands(c, routes, table, i);
    RouteLands(c, routes, table, j);
    DestinationFits(c, routes, table, d);
    var x := RouteSlot(c, table, routes, i, d);
    var g := GroupOf(|table|, Copies(c, table, d), routes[i]);
    var h := GroupOf(|table|, Copies(c, table, d), routes[j]);
    SpanSplits(Groups(c, table, d), c.padding, c.Capacity(), g, x);
    SpanSplits(Groups(c, table, d), c.padding, c.Capacity(), h, x);
    SpanUnique(Groups(c, table, d), c.padding, c.Capacity(), g, h, x);
    OccurrenceInjective(routes, i, j);
  }

  /** Every received slot is the slot of some route. */
  lemma {:induction false} SlotFilled(c: Config, routes: seq<int>, table: seq<seq<int>>, d: nat, g: nat, x: int)
    returns (i: nat)
    requires Sound(c, routes, table) && d < c.ranks && InReal(Groups(c, table, d), c.padding, g, x)
    ensures i < |routes| && 0 <= routes[i] < |table|
    ensures RouteDestination(table, routes, i) == d && RouteSlot(c, table, routes, i, d) == x
  {
    var e := GroupExpert(|table|, Copies(c, table, d), g);
    DestinationFits(c, routes, table, d);
    GroupOfUnique(|table|, Copies(c, table, d), g, e);
    ExpertGroup(c, table, d, e, x);
    var n := x - Offset(c, table, d, e) + Sum(table[e][..d]);
    SumTake(table[e], d);
    SumPrefixMonotone(table[e], 0, d);
    SumPrefixMonotone(table[e], d + 1, c.ranks);
    SumAll(table[e]);
    i := OccurrenceExists(routes, |routes|, e, n);
    DestinationIs(table[e], n, 0, d);
  }
}
