/**
 The reference planner as a whole: the plan that `build_reference_plan` returns for
 one rank, and the method that computes it.
 */
module Planner {
  import opened Sums
  import opened RouteCounts
  import opened Balance
  import opened Allocation
  import opened Layout
  import opened PlanTables
  import opened PlannerPhases
  import opened Wrappers

  datatype PlanError =
    | InvalidDimensions
    | InvalidPrefetchSlots
    | InvalidPadding
    | RouteCountMismatch
    | EncodedRangeOverflow
    | UnknownExpert(id: int)
    | AllocationExhausted
    | LayoutExceedsCapacity
    | DestinationNotFound

  datatype Request = Request(
    rank: int, rankSize: int, tokensPerRank: int, topk: int, expertCount: int,
    allTopk: seq<int>, prefetchSlots: Option<int>, tokenPadding: int)

  datatype ReferencePlan = ReferencePlan(
    dispatchedCapacity: nat,
    dst: seq<int>,
    cuSeqlens: seq<int>,
    zeroFillRanges: seq<int>,
    expertsToCopy: seq<int>,
    remoteStats: (nat, nat))

  const INT32_RANGE := 0x8000_0000

  // What the plan is

  /** The checks on the arguments, in the order in which they are made. */
  function Validate(q: Request): (r: Result<Config, PlanError>)
    ensures r.Ok? ==> r.value.Valid() && 0 <= q.rank < r.value.ranks && r.value.Experts() == q.expertCount
    ensures r.Ok? ==> |q.allTopk| == r.value.ranks * r.value.share
    ensures r.Ok? ==> r.value.ranks * r.value.Capacity() <= INT32_RANGE
  {
    if q.rankSize <= 0 || q.rank < 0 || q.rank >= q.rankSize || q.tokensPerRank <= 0 || q.topk <= 0 ||
       q.expertCount <= 0 || q.expertCount % q.rankSize != 0 then Err(InvalidDimensions)
    else
      var share := PositiveProduct(q.tokensPerRank, q.topk);
      var perRank := ExactQuotient(q.expertCount, q.rankSize);
      var slots := if q.prefetchSlots.None? then perRank else q.prefetchSlots.value;
      if slots <= 0 || slots > perRank then Err(InvalidPrefetchSlots)
      else if q.tokenPadding <= 0 then Err(InvalidPadding)
      else
        var c := Config(q.rankSize, perRank, share, slots, q.tokenPadding);
        if |q.allTopk| != q.rankSize * share then Err(RouteCountMismatch)
        else if q.rankSize * c.Capacity() > INT32_RANGE then Err(EncodedRangeOverflow)
        else Ok(c)
  }

  function PositiveProduct(a: nat, b: nat): (p: nat)
    requires a > 0 && b > 0
    ensures p > 0
  {
    MulMonotone(1, a, b);
    a * b
  }

  function ExactQuotient(a: nat, b: nat): (q: nat)
    requires a > 0 && b > 0 && a % b == 0
    ensures q > 0 && b * q == a
  {
    a / b
  }

  /** Copies of the destinations below `n`, one row after the other. */
  function CopyList(c: Config, table: seq<seq<int>>, n: nat): (r: seq<int>)
  {
    if n == 0 then [] else CopyList(c, table, n - 1) + Copies(c, table, n - 1)
  }

  /** Copies that home `h` sends to the destinations below `n`. */
  function Outgoing(c: Config, table: seq<seq<int>>, n: nat, h: int): nat
    requires c.perRank > 0
  {
    if n == 0 then 0 else Outgoing(c, table, n - 1, h) + FromHome(Copies(c, table, n - 1), c.perRank, h)
  }

  /** Starts and lengths of the zero-fill ranges, alternating. */
  function Alternate(fills: seq<(int, int)>): (r: seq<int>)
    ensures |r| == 2 * |fills|
    ensures forall g :: 0 <= g < |fills| ==> r[2 * g] == fills[g].0 && r[2 * g + 1] == fills[g].1
  {
    if |fills| == 0 then [] else
      var last := fills[|fills| - 1];
      Alternate(fills[..|fills| - 1]) + [last.0, last.1]
  }

  function ZeroFills(c: Config, table: seq<seq<int>>, d: nat): seq<(int, int)>
    requires c.padding > 0
  {
    var counts := Groups(c, table, d);
    seq(|counts|, g requires 0 <= g < |counts| => ZeroFill(counts, c.padding, c.Capacity(), g))
  }

  function GroupEnds(c: Config, table: seq<seq<int>>, d: nat): seq<int>
    requires c.padding > 0
  {
    var counts := Groups(c, table, d);
    seq(|counts|, g requires 0 <= g < |counts| => GroupStart(counts, c.padding, g + 1))
  }

  ghost predicate LayoutsFit(c: Config, table: seq<seq<int>>, n: nat)
    requires c.padding > 0
  {
    forall d :: 0 <= d < n ==> LayoutEnd(c, table, d) <= c.Capacity()
  }

  ghost predicate AllLayoutsFit(c: Config, table: seq<seq<int>>)
    requires c.padding > 0
  {
    LayoutsFit(c, table, c.ranks)
  }

  ghost predicate AllRoutesLand(c: Config, rank: nat, routes: seq<int>, table: seq<seq<int>>)
    requires Ready(c, routes, table) && rank < c.ranks
  {
    forall j :: 0 <= j < c.share ==> RouteDestination(table, routes, RouteIndex(c, rank, j)) < c.ranks
  }

  function EncodedRoutes(c: Config, rank: nat, routes: seq<int>, table: seq<seq<int>>): (dst: seq<int>)
    requires Ready(c, routes, table) && rank < c.ranks
    ensures |dst| == c.share
    ensures forall j :: 0 <= j < c.share ==> dst[j] == Encoded(c, table, routes, RouteIndex(c, rank, j))
  {
    seq(c.share, j requires 0 <= j < c.share => Encoded(c, table, routes, RouteIndex(c, rank, j)))
  }

  function PlanFrom(c: Config, rank: nat, routes: seq<int>, table: seq<seq<int>>): ReferencePlan
    requires Ready(c, routes, table) && rank < c.ranks
  {
    ReferencePlan(
      c.Capacity(),
      EncodedRoutes(c, rank, routes, table),
      GroupEnds(c, table, rank),
      Alternate(ZeroFills(c, table, rank)),
      CopyList(c, table, c.ranks),
      (|Remote(c, table, rank)|, Outgoing(c, table, c.ranks, rank)))
  }

  /** The outcome of planning, with every error the planner knows. */
  ghost function Plan(q: Request): Result<ReferencePlan, PlanError>
  {
    match Validate(q)
    case Err(error) => Err(error)
    case Ok(c) =>
      if !ValidRoutes(q.allTopk, q.expertCount) then
        Err(UnknownExpert(q.allTopk[FirstInvalid(q.allTopk, q.expertCount, 0)]))
      else
        match AllocationTable(c, q.allTopk)
        case None => Err(AllocationExhausted)
        case Some(table) =>
          if !AllLayoutsFit(c, table) then Err(LayoutExceedsCapacity)
          else if !AllRoutesLand(c, q.rank, q.allTopk, table) then Err(DestinationNotFound)
          else Ok(PlanFrom(c, q.rank, q.allTopk, table))
  }

  // Computing the plan

  datatype Layouts = Layouts(
    offsets: seq<seq<int>>, ends: seq<seq<int>>, fills: seq<seq<(int, int)>>, copies: seq<int>,
    incoming: seq<nat>, outgoing: seq<int>)

  function OffsetRow(c: Config, table: seq<seq<int>>, d: nat): (row: seq<int>)
    requires c.padding > 0
    ensures |row| == |table| && forall e :: 0 <= e < |table| ==> row[e] == Offset(c, table, d, e)
  {
    seq(|table|, e requires 0 <= e < |table| => Offset(c, table, d, e))
  }

  function OutgoingRow(c: Config, table: seq<seq<int>>, n: nat): (row: seq<int>)
    requires c.perRank > 0
    ensures |row| == c.ranks && forall h :: 0 <= h < c.ranks ==> row[h] == Outgoing(c, table, n, h)
  {
    seq(c.ranks, h => Outgoing(c, table, n, h))
  }

  /** The tables of the destinations below `n`. */
  function LayoutsBelow(c: Config, table: seq<seq<int>>, n: nat): Layouts
    requires c.padding > 0 && c.perRank > 0
  {
    if n == 0 then Layouts([], [], [], [], [], OutgoingRow(c, table, 0)) else
      var l := LayoutsBelow(c, table, n - 1);
      Layouts(l.offsets + [OffsetRow(c, table, n - 1)], l.ends + [GroupEnds(c, table, n - 1)],
              l.fills + [ZeroFills(c, table, n - 1)], l.copies + Copies(c, table, n - 1),
              l.incoming + [|Remote(c, table, n - 1)|], OutgoingRow(c, table, n))
  }

  lemma {:induction false} LayoutsAt(c: Config, table: seq<seq<int>>, n: nat, d: nat)
    requires c.padding > 0 && c.perRank > 0 && d < n
    ensures var l := LayoutsBelow(c, table, n);
      && |l.offsets| == |l.ends| == |l.fills| == |l.incoming| == n
      && l.offsets[d] == OffsetRow(c, table, d) && l.ends[d] == GroupEnds(c, table, d)
      && l.fills[d] == ZeroFills(c, table, d) && l.incoming[d] == |Remote(c, table, d)|
      && l.copies == CopyList(c, table, n) && l.outgoing == OutgoingRow(c, table, n)
  {
    if n > 1 {
      LayoutsAt(c, table, n - 1, if d < n - 1 then d else 0);
    }
  }

  /** The copies of one destination. */
  method DestinationCopies(c: Config, table: seq<seq<int>>, d: nat, outgoing: seq<int>)
    returns (copy: seq<int>, selected: seq<bool>, incoming: nat, outgoing': seq<int>)
    requires c.Valid() && IsTable(table, c.Experts(), c.ranks) && d < c.ranks
    requires outgoing == OutgoingRow(c, table, d)
    ensures copy == Copies(c, table, d) && incoming == |Remote(c, table, d)|
    ensures |selected| == |table| && forall e :: 0 <= e < |table| ==> selected[e] == (e in copy)
    ensures outgoing' == OutgoingRow(c, table, d + 1)
  {
    var load := Column(table, d);
    var remote := SortByLoad(load, RemoteExperts(load, d * c.perRank, c.perRank, |table|));
    incoming := |remote|;
    RemoteAre(c, table, d);
    copy, selected, outgoing' := FillSlots(remote, c.slots, |table|, c.ranks, c.perRank, outgoing);
  }

  /** The groups of one destination. */
  method DestinationGroups(c: Config, table: seq<seq<int>>, d: nat, copy: seq<int>, selected: seq<bool>)
    returns (offsets: seq<int>, ends: seq<int>, fills: seq<(int, int)>, end: int)
    requires c.padding > 0 && copy == Copies(c, table, d)
    requires |selected| == |table| && forall e :: 0 <= e < |table| ==> selected[e] == (e in copy)
    ensures offsets == OffsetRow(c, table, d) && ends == GroupEnds(c, table, d) && fills == ZeroFills(c, table, d)
    ensures end == LayoutEnd(c, table, d)
  {
    RemoteAre(c, table, d);
    offsets, ends, fills, end := LayGroups(Column(table, d), copy, selected, c.padding, c.Capacity());
    RowsLaid(c, table, d, offsets, ends, fills);
  }

  /** One destination: its copies and its groups. */
  method LayoutDestination(c: Config, table: seq<seq<int>>, d: nat, outgoing: seq<int>)
    returns (offsets: seq<int>, ends: seq<int>, fills: seq<(int, int)>, copy: seq<int>, incoming: nat,
             outgoing': seq<int>, end: int)
    requires c.Valid() && IsTable(table, c.Experts(), c.ranks) && d < c.ranks
    requires outgoing == OutgoingRow(c, table, d)
    ensures offsets == OffsetRow(c, table, d) && ends == GroupEnds(c, table, d) && fills == ZeroFills(c, table, d)
    ensures copy == Copies(c, table, d) && incoming == |Remote(c, table, d)|
    ensures outgoing' == OutgoingRow(c, table, d + 1) && end == LayoutEnd(c, table, d)
  {
    var selected;
    copy, selected, incoming, outgoing' := DestinationCopies(c, table, d, outgoing);
    offsets, ends, fills, end := DestinationGroups(c, table, d, copy, selected);
  }

  lemma {:induction false} RowsLaid(
    c: Config, table: seq<seq<int>>, d: nat, offsets: seq<int>, ends: seq<int>, fills: seq<(int, int)>)
    requires c.padding > 0
    requires OffsetsBelow(Column(table, d), Copies(c, table, d), c.padding, |table| + c.slots, offsets)
    requires EndsBelow(Groups(c, table, d), c.padding, |table| + c.slots, ends)
    requires FillsBelow(Groups(c, table, d), c.padding, c.Capacity(), |table| + c.slots, fills)
    ensures offsets == OffsetRow(c, table, d) && ends == GroupEnds(c, table, d) && fills == ZeroFills(c, table, d)
  {
  }

  /** All destinations; `None` when the padded layout of one of them exceeds its buffer. */
  method LayoutDestinations(c: Config, table: seq<seq<int>>) returns (r: Option<Layouts>)
    requires c.Valid() && IsTable(table, c.Experts(), c.ranks)
    ensures r == if AllLayoutsFit(c, table) then Some(LayoutsBelow(c, table, c.ranks)) else None
  {
    var l := Layouts([], [], [], [], [], Zeros(c.ranks));
    for d := 0 to c.ranks
      invariant l == LayoutsBelow(c, table, d)
      invariant LayoutsFit(c, table, d)
    {
      var end;
      l, end := AddDestination(c, table, d, l);
      if end > c.Capacity() {
        return None;
      }
    }
    return Some(l);
  }

  /** Destination `d` added to the tables of the destinations before it. */
  method AddDestination(c: Config, table: seq<seq<int>>, d: nat, l: Layouts) returns (next: Layouts, end: int)
    requires c.Valid() && IsTable(table, c.Experts(), c.ranks) && d < c.ranks
    requires l == LayoutsBelow(c, table, d)
    ensures next == LayoutsBelow(c, table, d + 1) && end == LayoutEnd(c, table, d)
  {
    var offsets, ends, fills, copy, incoming, outgoing;
    offsets, ends, fills, copy, incoming, outgoing, end := LayoutDestination(c, table, d, l.outgoing);
    next := Layouts(l.offsets + [offsets], l.ends + [ends], l.fills + [fills], l.copies + copy,
                    l.incoming + [incoming], outgoing);
  }

  /** Layout and encoding, given the allocation. */
  method FinishPlan(c: Config, rank: nat, routes: seq<int>, tpePrefix: seq<seq<int>>, table: seq<seq<int>>)
    returns (r: Result<ReferencePlan, PlanError>)
    requires Ready(c, routes, table) && rank < c.ranks && IsTable(tpePrefix, c.ranks, c.Experts())
    requires Accumulated(c.ranks, c.share, routes, tpePrefix, c.Experts())
    ensures r ==
      if !AllLayoutsFit(c, table) then Err(LayoutExceedsCapacity)
      else if !AllRoutesLand(c, rank, routes, table) then Err(DestinationNotFound)
      else Ok(PlanFrom(c, rank, routes, table))
  {
    var layouts := LayoutDestinations(c, table);
    if layouts.None? {
      return Err(LayoutExceedsCapacity);
    }
    var l := layouts.value;
    forall d | 0 <= d < c.ranks
      ensures |l.offsets| == c.ranks && l.offsets[d] == OffsetRow(c, table, d)
    {
      LayoutsAt(c, table, c.ranks, d);
    }
    var dst := EncodeRoutes(c, rank, routes, tpePrefix, table, l.offsets);
    if dst.None? {
      return Err(DestinationNotFound);
    }
    LayoutsAt(c, table, c.ranks, rank);
    assert dst.value == EncodedRoutes(c, rank, routes, table);
    return Ok(ReferencePlan(c.Capacity(), dst.value, l.ends[rank], Alternate(l.fills[rank]), l.copies,
                            (l.incoming[rank], l.outgoing[rank])));
  }

  /** The planner: computes exactly the plan, or the error, described by `Plan`. */
  method BuildReferencePlan(q: Request) returns (r: Result<ReferencePlan, PlanError>)
    ensures r == Plan(q)
  {
    var checked := Validate(q);
    if checked.Err? {
      return Err(checked.error);
    }
    var c, routes := checked.value, q.allTopk;
    var tpe := CountRoutes(c.ranks, c.share, c.Experts(), routes);
    if tpe.Err? {
      return Err(UnknownExpert(tpe.error));
    }
    var tpePrefix, counts := AccumulateCounts(c.ranks, c.share, c.Experts(), routes, tpe.value);
    var moves := BalanceRanks(InitialBalance(counts, c.ranks, c.perRank, c.share));
    var allocation := AllocateExperts(counts, moves, c.perRank);
    if allocation.None? {
      return Err(AllocationExhausted);
    }
    r := FinishPlan(c, q.rank, routes, tpePrefix, allocation.value);
  }
}
