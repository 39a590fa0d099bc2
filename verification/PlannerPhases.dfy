/**
 The loops of the planner, phase by phase, each proved to compute the table that
 the declarative description gives.
 */
module PlannerPhases {
  import opened Sums
  import opened RouteCounts
  import opened Balance
  import opened Allocation
  import opened Layout
  import opened PlanTables
  import opened Wrappers

  // Counting

  /** The position in the routing table where the routes of rank `s` start. */
  function SourceStart(ranks: nat, share: nat, s: nat): (n: nat)
    requires s <= ranks
    ensures n <= ranks * share
    ensures s < ranks ==> n + share <= ranks * share
  {
    MulMonotone(s, ranks, share);
    if s < ranks then
      BlockWithin(s, share, ranks);
      s * share
    else s * share
  }

  lemma {:induction false} SourceStartStep(ranks: nat, share: nat, s: nat)
    requires s < ranks
    ensures SourceStart(ranks, share, s + 1) == SourceStart(ranks, share, s) + share
  {
    assert (s + 1) * share == s * share + share;
  }

  /** Routes to expert `e` from the ranks before `s`. */
  function Before(ranks: nat, share: nat, routes: seq<int>, s: nat, e: int): nat
    requires s <= ranks && |routes| == ranks * share
  {
    Occurrences(routes, SourceStart(ranks, share, s), e)
  }

  /** Routes to expert `e` from rank `s`. */
  function FromSource(ranks: nat, share: nat, routes: seq<int>, s: nat, e: int): int
    requires s < ranks && |routes| == ranks * share
  {
    Before(ranks, share, routes, s + 1, e) - Before(ranks, share, routes, s, e)
  }

  /** Entry [s][e] counts the routes to `e` from ranks up to and including `s`, for experts below `n`. */
  ghost predicate Accumulated(ranks: nat, share: nat, routes: seq<int>, prefix: seq<seq<int>>, n: nat)
    requires |routes| == ranks * share
  {
    && |prefix| == ranks
    && (forall s, e :: 0 <= s < ranks && 0 <= e < n ==>
      e < |prefix[s]| && prefix[s][e] == Before(ranks, share, routes, s + 1, e))
  }

  /** The first position, from `n` on, whose expert does not exist; the length if there is none. */
  function FirstInvalid(routes: seq<int>, experts: nat, n: nat): (k: nat)
    requires n <= |routes|
    ensures n <= k <= |routes| && forall i :: n <= i < k ==> 0 <= routes[i] < experts
    ensures k < |routes| ==> !(0 <= routes[k] < experts)
    decreases |routes| - n
  {
    if n < |routes| && 0 <= routes[n] < experts then FirstInvalid(routes, experts, n + 1) else n
  }

  /** Row of per-expert counts for one source rank, or the first expert id that does not exist. */
  method CountSource(routes: seq<int>, begin: nat, share: nat, experts: nat) returns (r: Result<seq<int>, int>)
    requires begin + share <= |routes|
    ensures r.Ok? ==> FirstInvalid(routes, experts, begin) == FirstInvalid(routes, experts, begin + share)
    ensures r.Ok? ==> |r.value| == experts
    ensures r.Ok? ==> forall e :: 0 <= e < experts ==>
      r.value[e] == Occurrences(routes, begin + share, e) - Occurrences(routes, begin, e)
    ensures r.Err? ==> FirstInvalid(routes, experts, begin) < begin + share
    ensures r.Err? ==> r.error == routes[FirstInvalid(routes, experts, begin)]
  {
    var row := Zeros(experts);
    for route := 0 to share
      invariant |row| == experts
      invariant FirstInvalid(routes, experts, begin) == FirstInvalid(routes, experts, begin + route)
      invariant forall e :: 0 <= e < experts ==>
        row[e] == Occurrences(routes, begin + route, e) - Occurrences(routes, begin, e)
    {
      var expert := routes[begin + route];
      if expert < 0 || expert >= experts {
        return Err(expert);
      }
      row := row[expert := row[expert] + 1];
    }
    return Ok(row);
  }

  /** The per-source table of counts, or the first expert id that does not exist. */
  method CountRoutes(ranks: nat, share: nat, experts: nat, routes: seq<int>) returns (r: Result<seq<seq<int>>, int>)
    requires |routes| == ranks * share
    ensures r.Ok? <==> ValidRoutes(routes, experts)
    ensures r.Ok? ==> IsTable(r.value, ranks, experts)
    ensures r.Ok? ==> forall s, e :: 0 <= s < ranks && 0 <= e < experts ==>
      r.value[s][e] == FromSource(ranks, share, routes, s, e)
    ensures r.Err? ==> FirstInvalid(routes, experts, 0) < |routes|
    ensures r.Err? ==> r.error == routes[FirstInvalid(routes, experts, 0)]
  {
    var tpe := [];
    for source := 0 to ranks
      invariant IsTable(tpe, source, experts)
      invariant FirstInvalid(routes, experts, 0) == FirstInvalid(routes, experts, SourceStart(ranks, share, source))
      invariant forall s, e :: 0 <= s < source && 0 <= e < experts ==>
        tpe[s][e] == FromSource(ranks, share, routes, s, e)
    {
      SourceStartStep(ranks, share, source);
      var row := CountSource(routes, source * share, share, experts);
      if row.Err? {
        return Err(row.error);
      }
      tpe := tpe + [row.value];
    }
    assert SourceStart(ranks, share, ranks) == |routes|;
    return Ok(tpe);
  }

  /** Counts of every source rank accumulated over the ranks, and the counts over all ranks. */
  method AccumulateCounts(ranks: nat, share: nat, experts: nat, routes: seq<int>, tpe: seq<seq<int>>)
    returns (prefix: seq<seq<int>>, counts: seq<int>)
    requires |routes| == ranks * share && IsTable(tpe, ranks, experts)
    requires forall s, e :: 0 <= s < ranks && 0 <= e < experts ==>
      tpe[s][e] == FromSource(ranks, share, routes, s, e)
    ensures IsTable(prefix, ranks, experts) && Accumulated(ranks, share, routes, prefix, experts)
    ensures counts == Histogram(routes, experts)
  {
    prefix := tpe;
    counts := Zeros(experts);
    for expert := 0 to experts
      invariant IsTable(prefix, ranks, experts) && |counts| == experts
      invariant Accumulated(ranks, share, routes, prefix, expert)
      invariant forall e :: 0 <= e < expert ==> counts[e] == Before(ranks, share, routes, ranks, e)
    {
      var cumulative := 0;
      for source := 0 to ranks
        invariant IsTable(prefix, ranks, experts)
        invariant cumulative == Before(ranks, share, routes, source, expert)
        invariant Accumulated(ranks, share, routes, prefix, expert)
        invariant forall s :: 0 <= s < source ==> prefix[s][expert] == Before(ranks, share, routes, s + 1, expert)
      {
        cumulative := cumulative + tpe[source][expert];
        prefix := prefix[source := prefix[source][expert := cumulative]];
      }
      counts := counts[expert := cumulative];
    }
    assert SourceStart(ranks, share, ranks) == |routes|;
  }

  // Allocation

  lemma {:induction false} AllocateFails(counts: seq<int>, moves: seq<seq<int>>, perRank: nat, homes: nat, h: nat)
    requires Tables(counts, moves, perRank) && h < homes <= |moves|
    requires HomeTable(counts, moves, perRank, h).None?
    ensures Allocate(counts, moves, perRank, homes).None?
  {
    if h < homes - 1 {
      AllocateFails(counts, moves, perRank, homes - 1, h);
    }
  }

  /** Every expert's routes at its home. */
  method PlaceAtHome(counts: seq<int>, ranks: nat, perRank: nat) returns (table: seq<seq<int>>)
    requires perRank > 0 && |counts| == ranks * perRank
    ensures IsTable(table, |counts|, ranks)
    ensures forall h :: 0 <= h < ranks ==>
      BlockFits(h, perRank, |counts|) && RowsOf(table, h, perRank) == HomeRows(Block(counts, h, perRank), h, ranks)
  {
    table := ZeroTable(|counts|, ranks);
    for expert := 0 to |counts|
      invariant IsTable(table, |counts|, ranks)
      invariant forall e :: 0 <= e < expert ==> e / perRank < ranks && table[e] == HomeRow(counts[e], e / perRank, ranks)
      invariant forall e :: expert <= e < |counts| ==> table[e] == Zeros(ranks)
    {
      ghost var h, l := Locate(expert, ranks, perRank);
      var home := expert / perRank;
      table := table[expert := table[expert][home := counts[expert]]];
    }
    forall h | 0 <= h < ranks
      ensures BlockFits(h, perRank, |counts|)
      ensures RowsOf(table, h, perRank) == HomeRows(Block(counts, h, perRank), h, ranks)
    {
      BlockWithin(h, perRank, ranks);
      forall l | 0 <= l < perRank
        ensures RowsOf(table, h, perRank)[l] == HomeRow(counts[h * perRank + l], h, ranks)
      {
        BlockOf(h * perRank + l, h, perRank);
      }
    }
  }

  /** Serve the largest open quota of a home from its largest remaining expert, in the table. */
  method MoveRoutes(table: seq<seq<int>>, remaining: seq<int>, open: seq<int>, begin: nat, home: nat)
    returns (table': seq<seq<int>>, remaining': seq<int>, open': seq<int>)
    requires begin + |remaining| <= |table|
    requires Allocation.Shaped(Migration(table[begin..begin + |remaining|], remaining, open), home)
    requires !Done(Migration(table[begin..begin + |remaining|], remaining, open))
    requires !Exhausted(Migration(table[begin..begin + |remaining|], remaining, open))
    ensures |table'| == |table| && |remaining'| == |remaining|
    ensures table'[..begin] == table[..begin] && table'[begin + |remaining|..] == table[begin + |remaining|..]
    ensures Migration(table'[begin..begin + |remaining|], remaining', open') ==
      Move(Migration(table[begin..begin + |remaining|], remaining, open), home)
  {
    var destination := FirstMax(open);
    var local := FirstMax(remaining);
    var count := if remaining[local] < open[destination] then remaining[local] else open[destination];
    var expert := begin + local;
    var row := Shift(table[expert], home, destination, count);
    MoveInTable(table, begin, |remaining|, local, row);
    table' := table[expert := row];
    remaining' := remaining[local := remaining[local] - count];
    open' := open[destination := open[destination] - count];
  }

  lemma {:induction false} MoveInTable(table: seq<seq<int>>, begin: nat, n: nat, local: nat, row: seq<int>)
    requires begin + n <= |table| && local < n
    ensures table[begin + local := row][begin..begin + n] == table[begin..begin + n][local := row]
    ensures table[begin + local := row][..begin] == table[..begin]
    ensures table[begin + local := row][begin + n..] == table[begin + n..]
  {
  }

  /** One home's migration, on its rows of the table. */
  method MigrateHome(table: seq<seq<int>>, counts: seq<int>, quotas: seq<int>, begin: nat, home: nat)
    returns (r: Option<seq<seq<int>>>)
    requires |counts| > 0 && begin + |counts| <= |table| && home < |quotas|
    requires table[begin..begin + |counts|] == HomeRows(counts, home, |quotas|)
    ensures r.None? <==> Migrate(Begin(counts, quotas, home), home).None?
    ensures r.Some? ==>
      r.value == table[..begin] + Migrate(Begin(counts, quotas, home), home).value + table[begin + |counts|..]
  {
    var allocation := table;
    var remaining := counts;
    var open := quotas;
    ghost var n := |counts|;
    while true
      invariant |remaining| == n && |allocation| == |table|
      invariant Allocation.Shaped(Migration(allocation[begin..begin + n], remaining, open), home)
      invariant allocation[..begin] == table[..begin] && allocation[begin + n..] == table[begin + n..]
      invariant Migrate(Migration(allocation[begin..begin + n], remaining, open), home)
        == Migrate(Begin(counts, quotas, home), home)
      decreases NonZeros(remaining) + NonZeros(open)
    {
      if open[FirstMax(open)] <= 0 {
        break;
      }
      if remaining[FirstMax(remaining)] <= 0 {
        return None;
      }
      allocation, remaining, open := MoveRoutes(allocation, remaining, open, begin, home);
    }
    assert allocation == allocation[..begin] + allocation[begin..begin + n] + allocation[begin + n..];
    return Some(allocation);
  }

  /** The table once the first `homes` homes have migrated. */
  ghost predicate Migrated(
    counts: seq<int>, moves: seq<seq<int>>, perRank: nat, initial: seq<seq<int>>, homes: nat, table: seq<seq<int>>)
    requires Tables(counts, moves, perRank)
  {
    && homes <= |moves| && |initial| == |counts| && homes * perRank <= |initial|
    && Allocate(counts, moves, perRank, homes).Some?
    && table == Allocate(counts, moves, perRank, homes).value + initial[homes * perRank..]
  }

  lemma {:induction false} MigratedStep(
    counts: seq<int>, moves: seq<seq<int>>, perRank: nat, initial: seq<seq<int>>, home: nat, table: seq<seq<int>>,
    next: seq<seq<int>>)
    requires Tables(counts, moves, perRank) && home < |moves|
    requires Migrated(counts, moves, perRank, initial, home, table)
    requires BlockFits(home, perRank, |table|) && HomeTable(counts, moves, perRank, home).Some?
    requires next == table[..home * perRank] + HomeTable(counts, moves, perRank, home).value
      + table[home * perRank + perRank..]
    ensures Migrated(counts, moves, perRank, initial, home + 1, next)
  {
    var done := Allocate(counts, moves, perRank, home).value;
    assert (home + 1) * perRank == home * perRank + perRank;
    assert table[..home * perRank] == done;
    assert table[home * perRank + perRank..] == initial[home * perRank + perRank..];
  }

  /** A home that has not migrated yet still has its initial rows. */
  lemma {:induction false} UnmigratedRows(
    counts: seq<int>, moves: seq<seq<int>>, perRank: nat, initial: seq<seq<int>>, home: nat, table: seq<seq<int>>)
    requires Tables(counts, moves, perRank) && home < |moves|
    requires Migrated(counts, moves, perRank, initial, home, table)
    ensures |table| == |counts| && BlockFits(home, perRank, |table|)
    ensures RowsOf(table, home, perRank) == RowsOf(initial, home, perRank)
  {
    BlockWithin(home, perRank, |moves|);
    assert |Allocate(counts, moves, perRank, home).value| == home * perRank;
  }

  /** The allocation table, or `None` when some home runs out of routes before its quotas are filled. */
  method AllocateExperts(counts: seq<int>, moves: seq<seq<int>>, perRank: nat) returns (r: Option<seq<seq<int>>>)
    requires Tables(counts, moves, perRank)
    ensures r == Allocate(counts, moves, perRank, |moves|)
  {
    var allocation := PlaceAtHome(counts, |moves|, perRank);
    ghost var initial := allocation;
    assert Migrated(counts, moves, perRank, initial, 0, allocation);
    for home := 0 to |moves|
      invariant IsTable(allocation, |counts|, |moves|)
      invariant Migrated(counts, moves, perRank, initial, home, allocation)
    {
      UnmigratedRows(counts, moves, perRank, initial, home, allocation);
      var next := NextHome(allocation, counts, moves, perRank, home);
      if next.None? {
        AllocateFails(counts, moves, perRank, |moves|, home);
        return None;
      }
      MigratedStep(counts, moves, perRank, initial, home, allocation, next.value);
      allocation := next.value;
    }
    assert allocation == Allocate(counts, moves, perRank, |moves|).value;
    return Some(allocation);
  }

  /** The migration of home `home` with its own block of counts and its own quotas. */
  method NextHome(table: seq<seq<int>>, counts: seq<int>, moves: seq<seq<int>>, perRank: nat, home: nat)
    returns (r: Option<seq<seq<int>>>)
    requires Tables(counts, moves, perRank) && home < |moves| && IsTable(table, |counts|, |moves|)
    requires BlockFits(home, perRank, |counts|)
    requires RowsOf(table, home, perRank) == HomeRows(Block(counts, home, perRank), home, |moves|)
    ensures r.None? <==> HomeTable(counts, moves, perRank, home).None?
    ensures r.Some? ==> IsTable(r.value, |counts|, |moves|)
    ensures r.Some? ==>
      r.value == table[..home * perRank] + HomeTable(counts, moves, perRank, home).value
        + table[home * perRank + perRank..]
  {
    var begin := home * perRank;
    r := MigrateHome(table, counts[begin..begin + perRank], moves[home], begin, home);
    if r.Some? {
      SplicedTable(table, HomeTable(counts, moves, perRank, home).value, begin, perRank, |moves|);
    }
  }

  lemma {:induction false} SplicedTable(table: seq<seq<int>>, rows: seq<seq<int>>, begin: nat, n: nat, cols: nat)
    requires begin + n <= |table| && IsTable(table, |table|, cols) && IsTable(rows, n, cols)
    ensures IsTable(table[..begin] + rows + table[begin + n..], |table|, cols)
  {
  }

  // Layout

  /** Copied experts whose home is `home`. */
  function FromHome(copy: seq<int>, perRank: nat, home: int): nat
    requires perRank > 0
  {
    if |copy| == 0 then 0 else
      var last := copy[|copy| - 1];
      FromHome(copy[..|copy| - 1], perRank, home) + (if last >= 0 && last / perRank == home then 1 else 0)
  }

  lemma {:induction false} FromHomeSnoc(copy: seq<int>, perRank: nat, home: int, e: int)
    requires perRank > 0
    ensures FromHome(copy + [e], perRank, home) ==
      FromHome(copy, perRank, home) + (if e >= 0 && e / perRank == home then 1 else 0)
  {
    assert (copy + [e])[..|copy|] == copy;
  }

  /** Unused prefetch slots count for no home. */
  lemma {:induction false} FromHomeUnused(remote: seq<int>, slots: nat, perRank: nat, home: int)
    requires perRank > 0 && |remote| <= slots
    ensures FromHome(CopyRow(remote, slots), perRank, home) == FromHome(remote, perRank, home)
  {
    if slots == |remote| {
      assert CopyRow(remote, slots) == remote;
    } else {
      FromHomeUnused(remote, slots - 1, perRank, home);
      assert CopyRow(remote, slots) == CopyRow(remote, slots - 1) + [-1];
      FromHomeSnoc(CopyRow(remote, slots - 1), perRank, home, -1);
    }
  }

  lemma {:induction false} CopyRowMembers(remote: seq<int>, slots: nat, e: nat)
    requires |remote| <= slots
    ensures e in CopyRow(remote, slots) <==> e in remote
  {
    var copy := CopyRow(remote, slots);
    if e in remote {
      var s :| 0 <= s < |remote| && remote[s] == e;
      assert copy[s] == e;
    }
  }

  /**
   The prefetch slots filled with the first remote experts. `outgoing` counts,
   per home rank, the copies it has to send; these copies are added to it.
   */
  method FillSlots(remote: seq<int>, slots: nat, experts: nat, ranks: nat, perRank: nat, outgoing: seq<int>)
    returns (copy: seq<int>, selected: seq<bool>, outgoing': seq<int>)
    requires perRank > 0 && experts == ranks * perRank && |outgoing| == ranks
    requires forall i :: 0 <= i < |remote| ==> 0 <= remote[i] < experts
    ensures copy == CopyRow(remote, slots)
    ensures |selected| == experts && forall e :: 0 <= e < experts ==> selected[e] == (e in copy)
    ensures |outgoing'| == ranks
    ensures forall h :: 0 <= h < ranks ==> outgoing'[h] == outgoing[h] + FromHome(copy, perRank, h)
  {
    copy := seq(slots, s => -1);
    selected := seq(experts, e => false);
    outgoing' := outgoing;
    var n := if |remote| < slots then |remote| else slots;
    for slot := 0 to n
      invariant copy == CopyRow(remote[..slot], slots)
      invariant |selected| == experts && forall e :: 0 <= e < experts ==> selected[e] == (e in remote[..slot])
      invariant |outgoing'| == ranks
      invariant forall h :: 0 <= h < ranks ==> outgoing'[h] == outgoing[h] + FromHome(remote[..slot], perRank, h)
    {
      var expert := remote[slot];
      assert remote[..slot + 1] == remote[..slot] + [expert];
      copy := copy[slot := expert];
      selected := selected[expert := true];
      ghost var h, l := Locate(expert, ranks, perRank);
      var home := expert / perRank;
      forall k | 0 <= k < ranks
        ensures FromHome(remote[..slot + 1], perRank, k) ==
          FromHome(remote[..slot], perRank, k) + (if k == home then 1 else 0)
      {
        FromHomeSnoc(remote[..slot], perRank, k, expert);
      }
      outgoing' := outgoing'[home := outgoing'[home] + 1];
    }
    assert CopyRow(remote[..n], slots) == CopyRow(remote, slots);
    forall h | 0 <= h < ranks
      ensures FromHome(copy, perRank, h) == FromHome(remote[..n], perRank, h)
    {
      FromHomeUnused(remote[..n], slots, perRank, h);
    }
    forall e | 0 <= e < experts
      ensures e in copy <==> e in remote[..n]
    {
      CopyRowMembers(remote[..n], slots, e);
    }
  }

  /** The value of `offsets` once the groups below `group` are laid out. */
  function OffsetBelow(load: seq<int>, copy: seq<int>, padding: nat, group: nat, e: nat): int
    requires padding > 0 && e < |load|
  {
    var g := GroupOf(|load|, copy, e);
    if load[e] > 0 && g < group then GroupStart(ByGroup(load, copy), padding, g) else 0
  }

  /** Laying out one more group sets the offset of its expert, if it has routes, and of no other. */
  lemma {:induction false} OffsetStep(load: seq<int>, copy: seq<int>, padding: nat, group: nat, e: nat)
    requires padding > 0 && ValidCopy(copy, |load|) && group < |load| + |copy| && e < |load|
    ensures OffsetBelow(load, copy, padding, group + 1, e) ==
      if GroupExpert(|load|, copy, group) == e && load[e] > 0
      then GroupStart(ByGroup(load, copy), padding, group)
      else OffsetBelow(load, copy, padding, group, e)
  {
    if GroupExpert(|load|, copy, group) == e {
      GroupOfUnique(|load|, copy, group, e);
    }
  }

  ghost predicate OffsetsBelow(load: seq<int>, copy: seq<int>, padding: nat, group: nat, offsets: seq<int>)
    requires padding > 0
  {
    |offsets| == |load| && forall e :: 0 <= e < |load| ==> offsets[e] == OffsetBelow(load, copy, padding, group, e)
  }

  lemma {:induction false} OffsetsStep(
    load: seq<int>, copy: seq<int>, padding: nat, group: nat, offsets: seq<int>, expert: int)
    requires padding > 0 && ValidCopy(copy, |load|) && group < |load| + |copy|
    requires OffsetsBelow(load, copy, padding, group, offsets) && expert == GroupExpert(|load|, copy, group)
    ensures OffsetsBelow(load, copy, padding, group + 1,
      if 0 <= expert < |load| && load[expert] > 0
      then offsets[expert := GroupStart(ByGroup(load, copy), padding, group)] else offsets)
  {
    forall e | 0 <= e < |load|
      ensures OffsetBelow(load, copy, padding, group + 1, e) ==
        if expert == e && load[e] > 0
        then GroupStart(ByGroup(load, copy), padding, group) else OffsetBelow(load, copy, padding, group, e)
    {
      OffsetStep(load, copy, padding, group, e);
    }
  }

  /** The ends of the groups below `group`. */
  ghost predicate EndsBelow(counts: seq<int>, padding: nat, group: nat, ends: seq<int>)
    requires padding > 0
  {
    && group <= |counts| == |ends|
    && forall g :: 0 <= g < group ==> ends[g] == GroupStart(counts, padding, g + 1)
  }

  /** The zero-fill ranges of the groups below `group`; the others are still empty. */
  ghost predicate FillsBelow(counts: seq<int>, padding: nat, capacity: int, group: nat, fills: seq<(int, int)>)
    requires padding > 0
  {
    && |fills| == |counts|
    && forall g :: 0 <= g < |counts| ==>
      fills[g] == if g < group then ZeroFill(counts, padding, capacity, g) else (0, 0)
  }

  lemma {:induction false} FillsStep(
    counts: seq<int>, padding: nat, capacity: int, group: nat, fills: seq<(int, int)>)
    requires padding > 0 && group < |counts| && FillsBelow(counts, padding, capacity, group, fills)
    ensures FillsBelow(counts, padding, capacity, group + 1,
                       fills[group := ZeroFill(counts, padding, capacity, group)])
  {
  }

  /** The expert of a group, if any, and its number of routes. */
  method GroupRoutes(load: seq<int>, copy: seq<int>, selected: seq<bool>, group: nat)
    returns (expert: int, count: int)
    requires group < |load| + |copy| && ValidCopy(copy, |load|)
    requires |selected| == |load| && forall e :: 0 <= e < |load| ==> selected[e] == (e in copy)
    ensures expert == GroupExpert(|load|, copy, group) && count == ByGroup(load, copy)[group]
    ensures -1 <= expert < |load|
    ensures count > 0 ==> expert >= 0 && count == load[expert]
  {
    count := 0;
    expert := -1;
    if group < |load| {
      if !selected[group] {
        expert := group;
        count := load[expert];
      }
    } else {
      expert := copy[group - |load|];
      if expert >= 0 {
        count := load[expert];
      }
    }
  }

  method RoundUp(count: int, padding: nat) returns (padded: int)
    requires padding > 0
    ensures padded == Padded(count, padding)
  {
    padded := if count > 0 then ((count + padding - 1) / padding) * padding else 0;
    if count > 0 {
      PaddedByDivision(count, padding);
    }
  }

  /** The groups of one destination: expert offsets, group ends, zero-fill ranges and the end of the last group. */
  method LayGroups(load: seq<int>, copy: seq<int>, selected: seq<bool>, padding: nat, capacity: int)
    returns (offsets: seq<int>, ends: seq<int>, zeroFill: seq<(int, int)>, end: int)
    requires padding > 0 && ValidCopy(copy, |load|)
    requires |selected| == |load| && forall e :: 0 <= e < |load| ==> selected[e] == (e in copy)
    ensures OffsetsBelow(load, copy, padding, |load| + |copy|, offsets)
    ensures EndsBelow(ByGroup(load, copy), padding, |load| + |copy|, ends)
    ensures FillsBelow(ByGroup(load, copy), padding, capacity, |load| + |copy|, zeroFill)
    ensures end == GroupStart(ByGroup(load, copy), padding, |load| + |copy|)
  {
    ghost var groups := ByGroup(load, copy);
    var n := |load| + |copy|;
    offsets := Zeros(|load|);
    ends := Zeros(n);
    zeroFill := seq(n, g => (0, 0));
    end := 0;
    for group := 0 to n
      invariant end == GroupStart(groups, padding, group)
      invariant OffsetsBelow(load, copy, padding, group, offsets)
      invariant EndsBelow(groups, padding, group, ends)
      invariant FillsBelow(groups, padding, capacity, group, zeroFill)
    {
      var expert, count := GroupRoutes(load, copy, selected, group);
      OffsetsStep(load, copy, padding, group, offsets, expert);
      if count > 0 {
        offsets := offsets[expert := end];
      }
      var paddedEnd, fill := PadGroup(groups, padding, capacity, group, n, count, end);
      FillsStep(groups, padding, capacity, group, zeroFill);
      zeroFill := zeroFill[group := fill];
      end := paddedEnd;
      ends := ends[group := paddedEnd];
    }
  }

  /** The end of one group and what is left of it to clear: nothing, written (0, 0), when its routes fill it. */
  method PadGroup(
    ghost counts: seq<int>, padding: nat, capacity: int, group: nat, n: nat, count: int, end: int)
    returns (paddedEnd: int, fill: (int, int))
    requires padding > 0 && group < |counts| == n && count == counts[group] && end == GroupStart(counts, padding, group)
    ensures paddedEnd == GroupStart(counts, padding, group + 1)
    ensures fill == ZeroFill(counts, padding, capacity, group)
  {
    GroupStartStep(counts, padding, group);
    var padded := RoundUp(count, padding);
    var realEnd := end + count;
    paddedEnd := end + padded;
    var zeroEnd := if group + 1 == n then capacity else paddedEnd;
    fill := if zeroEnd > realEnd then (realEnd, zeroEnd - realEnd) else (0, 0);
  }

  // Encoding

  /** Entry [e][d] is the number of routes of `e` that go to ranks up to and including `d`. */
  method AccumulateRows(table: seq<seq<int>>) returns (prefix: seq<seq<int>>)
    ensures |prefix| == |table| && forall e :: 0 <= e < |table| ==> |prefix[e]| == |table[e]|
    ensures forall e, d :: 0 <= e < |table| && 0 <= d < |table[e]| ==> prefix[e][d] == Sum(table[e][..d + 1])
  {
    prefix := table;
    for expert := 0 to |table|
      invariant |prefix| == |table| && forall e :: 0 <= e < |table| ==> |prefix[e]| == |table[e]|
      invariant forall e, d :: 0 <= e < expert && 0 <= d < |table[e]| ==> prefix[e][d] == Sum(table[e][..d + 1])
    {
      var cumulative := 0;
      var row := table[expert];
      for destination := 0 to |row|
        invariant |row| == |table[expert]| && cumulative == Sum(table[expert][..destination])
        invariant forall d :: 0 <= d < destination ==> row[d] == Sum(table[expert][..d + 1])
      {
        SumTake(table[expert], destination);
        cumulative := cumulative + table[expert][destination];
        row := row[destination := cumulative];
      }
      prefix := prefix[expert := row];
    }
  }

  /** The rank that holds occurrence `g`, found by walking the accumulated row. */
  method FindDestination(ghost row: seq<int>, prefix: seq<int>, g: int) returns (d: nat)
    requires |prefix| == |row| && forall k :: 0 <= k < |row| ==> prefix[k] == Sum(row[..k + 1])
    ensures d == Destination(row, g, 0)
  {
    d := 0;
    while d < |prefix| && prefix[d] <= g
      invariant d <= |row| && Destination(row, g, d) == Destination(row, g, 0)
    {
      d := d + 1;
    }
  }

  /** The position of route `j` of rank `rank` in the routing table. */
  function RouteIndex(c: Config, rank: nat, j: nat): (i: nat)
    requires rank < c.ranks && j < c.share
    ensures i < c.ranks * c.share
  {
    SourceStart(c.ranks, c.share, rank) + j
  }

  /** Tables that the encoding of a rank's routes reads. */
  ghost predicate Ready(c: Config, routes: seq<int>, table: seq<seq<int>>)
  {
    && c.Valid() && |routes| == c.ranks * c.share && ValidRoutes(routes, c.Experts())
    && IsTable(table, c.Experts(), c.ranks)
  }

  ghost predicate OffsetTable(c: Config, table: seq<seq<int>>, offsets: seq<seq<int>>)
    requires c.padding > 0
  {
    && IsTable(offsets, c.ranks, |table|)
    && forall d, e :: 0 <= d < c.ranks && 0 <= e < |table| ==> offsets[d][e] == Offset(c, table, d, e)
  }

  /** The encoded destination of route `i`, occurrence `g` of its expert; `None` when no rank holds it. */
  method EncodeRoute(
    c: Config, ghost routes: seq<int>, ghost table: seq<seq<int>>, ghost i: nat, expert: nat, g: int,
    prefix: seq<int>, offsets: seq<seq<int>>)
    returns (r: Option<int>)
    requires Ready(c, routes, table) && i < |routes| && expert == routes[i] && g == Occurrences(routes, i, routes[i])
    requires |prefix| == c.ranks && forall d :: 0 <= d < c.ranks ==> prefix[d] == Sum(table[expert][..d + 1])
    requires OffsetTable(c, table, offsets)
    ensures r.Some? <==> RouteDestination(table, routes, i) < c.ranks
    ensures r.Some? ==> r.value == Encoded(c, table, routes, i)
  {
    var d := FindDestination(table[expert], prefix, g);
    if d >= c.ranks {
      return None;
    }
    var previous := if d == 0 then 0 else prefix[d - 1];
    return Some(d * c.Capacity() + offsets[d][expert] + g - previous);
  }

  /** The encoded destinations of one rank's routes; `None` when some route finds no destination. */
  method EncodeRoutes(
    c: Config, rank: nat, routes: seq<int>, tpePrefix: seq<seq<int>>, table: seq<seq<int>>, offsets: seq<seq<int>>)
    returns (r: Option<seq<int>>)
    requires Ready(c, routes, table) && rank < c.ranks && OffsetTable(c, table, offsets)
    requires IsTable(tpePrefix, c.ranks, c.Experts())
    requires Accumulated(c.ranks, c.share, routes, tpePrefix, c.Experts())
    ensures r.Some? <==> forall j :: 0 <= j < c.share ==>
      RouteDestination(table, routes, RouteIndex(c, rank, j)) < c.ranks
    ensures r.Some? ==> |r.value| == c.share && forall j :: 0 <= j < c.share ==>
      r.value[j] == Encoded(c, table, routes, RouteIndex(c, rank, j))
  {
    var prefix := AccumulateRows(table);
    ghost var begin := SourceStart(c.ranks, c.share, rank);
    var localCounts := Zeros(c.Experts());
    var dst := [];
    for route := 0 to c.share
      invariant |localCounts| == c.Experts() && |dst| == route
      invariant forall e :: 0 <= e < c.Experts() ==>
        localCounts[e] == Occurrences(routes, begin + route, e) - Occurrences(routes, begin, e)
      invariant forall j :: 0 <= j < route ==>
        && RouteDestination(table, routes, RouteIndex(c, rank, j)) < c.ranks
        && dst[j] == Encoded(c, table, routes, RouteIndex(c, rank, j))
    {
      var expert := routes[rank * c.share + route];
      var occurrence := localCounts[expert];
      localCounts := localCounts[expert := localCounts[expert] + 1];
      var sourcePrefix := if rank == 0 then 0 else tpePrefix[rank - 1][expert];
      assert sourcePrefix == Before(c.ranks, c.share, routes, rank, expert);
      var raw := EncodeRoute(c, routes, table, RouteIndex(c, rank, route), expert, sourcePrefix + occurrence,
                             prefix[expert], offsets);
      if raw.None? {
        return None;
      }
      dst := dst + [raw.value];
    }
    return Some(dst);
  }
}
