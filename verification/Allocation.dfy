/**
 The greedy allocator: each home rank splits the routes of its own experts over
 the ranks it has to fill. A home always serves its largest open quota from its
 largest remaining expert, and moves as much as both allow.

 Row `e` of the allocation says how many routes of expert `e` every rank
 receives. Homes only touch the rows of their own experts, so the table is the
 concatenation of one block of rows per home.
 */
module Allocation {
  import opened Sums
  import opened Balance
  import opened Wrappers

  /** The rows of one home's experts, what is left of each expert at home, and the open quotas. */
  datatype Migration = Migration(rows: seq<seq<int>>, remaining: seq<int>, quotas: seq<int>)

  predicate Shaped(m: Migration, home: nat)
  {
    |m.remaining| > 0 && home < |m.quotas| && IsTable(m.rows, |m.remaining|, |m.quotas|)
  }

  predicate Done(m: Migration)
    requires |m.quotas| > 0
  {
    m.quotas[FirstMax(m.quotas)] <= 0
  }

  predicate Exhausted(m: Migration)
    requires |m.remaining| > 0
  {
    m.remaining[FirstMax(m.remaining)] <= 0
  }

  /** Serve the largest open quota from the largest remaining expert. */
  function Move(m: Migration, home: nat): (next: Migration)
    requires Shaped(m, home) && !Done(m) && !Exhausted(m)
    ensures Shaped(next, home) && |next.remaining| == |m.remaining| && |next.quotas| == |m.quotas|
    ensures NonZeros(next.remaining) + NonZeros(next.quotas) < NonZeros(m.remaining) + NonZeros(m.quotas)
  {
    var destination := FirstMax(m.quotas);
    var expert := FirstMax(m.remaining);
    var count := if m.remaining[expert] < m.quotas[destination] then m.remaining[expert] else m.quotas[destination];
    NonZerosUpdate(m.remaining, expert, m.remaining[expert] - count);
    NonZerosUpdate(m.quotas, destination, m.quotas[destination] - count);
    Migration(m.rows[expert := Shift(m.rows[expert], home, destination, count)],
              m.remaining[expert := m.remaining[expert] - count],
              m.quotas[destination := m.quotas[destination] - count])
  }

  /**
   A move serves the rank with the largest open quota from the expert with the most
   routes left at home, as far as both reach, and changes nothing else.
   */
  lemma {:induction false} MoveServesLargest(m: Migration, home: nat) returns (expert: nat, destination: nat, count: int)
    requires Shaped(m, home) && !Done(m) && !Exhausted(m) && m.quotas[home] == 0
    ensures IsFirstMax(m.remaining, expert) && IsFirstMax(m.quotas, destination) && destination != home
    ensures count > 0 && (count == m.remaining[expert] <= m.quotas[destination] ||
                          count == m.quotas[destination] <= m.remaining[expert])
    ensures Move(m, home).remaining == m.remaining[expert := m.remaining[expert] - count]
    ensures Move(m, home).quotas == m.quotas[destination := m.quotas[destination] - count]
    ensures forall l, d :: 0 <= l < |m.remaining| && 0 <= d < |m.quotas| ==>
      Move(m, home).rows[l][d] - m.rows[l][d] ==
        if l != expert then 0 else if d == destination then count else if d == home then -count else 0
  {
    expert, destination := FirstMax(m.remaining), FirstMax(m.quotas);
    count := if m.remaining[expert] < m.quotas[destination] then m.remaining[expert] else m.quotas[destination];
  }

  /** Hand `count` routes from `home` to `destination`. */
  function Shift(row: seq<int>, home: nat, destination: nat, count: int): (r: seq<int>)
    requires home < |row| && destination < |row|
    ensures |r| == |row|
  {
    var given := row[destination := row[destination] + count];
    given[home := given[home] - count]
  }

  /** Fill every quota of one home; `None` when its experts run out first. */
  function Migrate(m: Migration, home: nat): (rows: Option<seq<seq<int>>>)
    requires Shaped(m, home)
    ensures rows.Some? ==> IsTable(rows.value, |m.remaining|, |m.quotas|)
    decreases NonZeros(m.remaining) + NonZeros(m.quotas)
  {
    if Done(m) then Some(m.rows)
    else if Exhausted(m) then None
    else Migrate(Move(m, home), home)
  }

  /** Before migration every route of an expert stays at its home. */
  function HomeRow(count: int, home: nat, ranks: nat): (row: seq<int>)
    requires home < ranks
    ensures |row| == ranks
    ensures forall d :: 0 <= d < ranks ==> row[d] == if d == home then count else 0
  {
    Zeros(ranks)[home := count]
  }

  function HomeRows(counts: seq<int>, home: nat, ranks: nat): (rows: seq<seq<int>>)
    requires home < ranks
    ensures IsTable(rows, |counts|, ranks)
    ensures forall l :: 0 <= l < |counts| ==> rows[l] == HomeRow(counts[l], home, ranks)
  {
    seq(|counts|, l requires 0 <= l < |counts| => HomeRow(counts[l], home, ranks))
  }

  function Begin(counts: seq<int>, quotas: seq<int>, home: nat): (m: Migration)
    requires |counts| > 0 && home < |quotas|
    ensures Shaped(m, home)
  {
    Migration(HomeRows(counts, home, |quotas|), counts, quotas)
  }

  // What a home's migration keeps

  /** Row `l` accounts for all routes of its expert; those still at home are the remaining ones. */
  ghost predicate RowConserved(m: Migration, counts: seq<int>, home: nat, l: nat)
    requires Shaped(m, home) && l < |m.remaining| == |counts|
  {
    && Sum(m.rows[l]) == counts[l]
    && m.rows[l][home] == m.remaining[l]
    && (forall d :: 0 <= d < |m.quotas| ==> m.rows[l][d] >= 0)
  }

  /** What rank `d` has received from this home plus what it still waits for is the original quota. */
  ghost predicate QuotaConserved(m: Migration, quotas: seq<int>, home: nat, d: nat)
    requires Shaped(m, home) && d < |m.quotas| == |quotas|
  {
    && m.quotas[d] >= 0
    && (d != home ==> Sum(Column(m.rows, d)) + m.quotas[d] == quotas[d])
  }

  ghost predicate Conserves(m: Migration, counts: seq<int>, quotas: seq<int>, home: nat)
    requires Shaped(m, home) && |m.remaining| == |counts| && |m.quotas| == |quotas|
  {
    && (forall l :: 0 <= l < |counts| ==> RowConserved(m, counts, home, l))
    && (forall d :: 0 <= d < |quotas| ==> QuotaConserved(m, quotas, home, d))
    && m.quotas[home] == 0
    && Sum(m.remaining) - Sum(m.quotas) == Sum(counts) - Sum(quotas)
  }

  /** A quota table row a home can serve. */
  ghost predicate Affordable(counts: seq<int>, quotas: seq<int>, home: nat)
  {
    && |counts| > 0 && home < |quotas| && quotas[home] == 0
    && (forall l :: 0 <= l < |counts| ==> counts[l] >= 0)
    && (forall d :: 0 <= d < |quotas| ==> quotas[d] >= 0)
    && Sum(quotas) <= Sum(counts)
  }

  lemma {:induction false} BeginConserves(counts: seq<int>, quotas: seq<int>, home: nat)
    requires Affordable(counts, quotas, home)
    ensures Conserves(Begin(counts, quotas, home), counts, quotas, home)
  {
    var m := Begin(counts, quotas, home);
    forall l | 0 <= l < |counts|
      ensures RowConserved(m, counts, home, l)
    {
      SumSingle(m.rows[l], home);
    }
    forall d | 0 <= d < |quotas|
      ensures QuotaConserved(m, quotas, home, d)
    {
      if d != home {
        SumConstant(Column(m.rows, d), 0);
      }
    }
  }

  lemma {:induction false} MoveKeepsRow(m: Migration, counts: seq<int>, home: nat, l: nat)
    requires Shaped(m, home) && !Done(m) && !Exhausted(m) && l < |m.remaining| == |counts|
    requires RowConserved(m, counts, home, l) && m.quotas[home] == 0
    ensures RowConserved(Move(m, home), counts, home, l)
  {
    var expert, destination := FirstMax(m.remaining), FirstMax(m.quotas);
    if l == expert {
      var row := m.rows[l];
      var count := m.remaining[l] - Move(m, home).remaining[l];
      SumUpdate(row, destination, row[destination] + count);
      SumUpdate(row[destination := row[destination] + count], home, row[home] - count);
    }
  }

  lemma {:induction false} MoveKeepsQuota(m: Migration, quotas: seq<int>, home: nat, d: nat)
    requires Shaped(m, home) && !Done(m) && !Exhausted(m) && d < |m.quotas| == |quotas|
    requires QuotaConserved(m, quotas, home, d) && m.quotas[home] == 0
    ensures QuotaConserved(Move(m, home), quotas, home, d)
  {
    var expert := FirstMax(m.remaining);
    ColumnUpdate(m.rows, expert, Move(m, home).rows[expert], d);
  }

  lemma {:induction false} MoveConserves(m: Migration, counts: seq<int>, quotas: seq<int>, home: nat)
    requires Shaped(m, home) && !Done(m) && !Exhausted(m)
    requires |m.remaining| == |counts| && |m.quotas| == |quotas| && Conserves(m, counts, quotas, home)
    ensures Conserves(Move(m, home), counts, quotas, home)
  {
    var next := Move(m, home);
    forall l | 0 <= l < |counts|
      ensures RowConserved(next, counts, home, l)
    {
      MoveKeepsRow(m, counts, home, l);
    }
    forall d | 0 <= d < |quotas|
      ensures QuotaConserved(next, quotas, home, d)
    {
      MoveKeepsQuota(m, quotas, home, d);
    }
    var expert, destination := FirstMax(m.remaining), FirstMax(m.quotas);
    SumUpdate(m.remaining, expert, next.remaining[expert]);
    SumUpdate(m.quotas, destination, next.quotas[destination]);
  }

  /** While a quota is open some expert still has routes at home. */
  lemma {:induction false} NeverExhausted(m: Migration, counts: seq<int>, quotas: seq<int>, home: nat)
    requires Shaped(m, home) && |m.remaining| == |counts| && |m.quotas| == |quotas|
    requires Conserves(m, counts, quotas, home) && Sum(quotas) <= Sum(counts) && !Done(m)
    ensures !Exhausted(m)
  {
    var d := FirstMax(m.quotas);
    forall k | 0 <= k < |quotas|
      ensures m.quotas[k] >= 0
    {
      assert QuotaConserved(m, quotas, home, k);
    }
    SumAtLeast(m.quotas, d);
    SumPositive(m.remaining, FirstMax(m.remaining));
  }

  /** Block of a home after migration: nothing is lost and each destination has received its quota. */
  ghost predicate Served(rows: seq<seq<int>>, counts: seq<int>, quotas: seq<int>, home: nat)
  {
    && IsTable(rows, |counts|, |quotas|) && home < |quotas|
    && (forall l, d :: 0 <= l < |counts| && 0 <= d < |quotas| ==> rows[l][d] >= 0)
    && (forall l :: 0 <= l < |counts| ==> Sum(rows[l]) == counts[l])
    && (forall d :: 0 <= d < |quotas| ==> Sum(Column(rows, d)) == EndsAt(counts, quotas, home, d))
  }

  /** Routes of a home's experts that rank `d` ends up with. */
  function EndsAt(counts: seq<int>, quotas: seq<int>, home: nat, d: nat): int
    requires d < |quotas|
  {
    if d == home then Sum(counts) - Sum(quotas) else quotas[d]
  }

  lemma {:induction false} DoneServes(m: Migration, counts: seq<int>, quotas: seq<int>, home: nat)
    requires Shaped(m, home) && |m.remaining| == |counts| && |m.quotas| == |quotas|
    requires Conserves(m, counts, quotas, home) && Done(m)
    ensures Served(m.rows, counts, quotas, home)
  {
    forall d | 0 <= d < |quotas|
      ensures m.quotas[d] == 0
    {
      assert QuotaConserved(m, quotas, home, d);
    }
    SumConstant(m.quotas, 0);
    forall l | 0 <= l < |counts|
      ensures Sum(m.rows[l]) == counts[l] && m.rows[l][home] == m.remaining[l]
      ensures forall d :: 0 <= d < |quotas| ==> m.rows[l][d] >= 0
    {
      assert RowConserved(m, counts, home, l);
    }
    assert Column(m.rows, home) == m.remaining;
    forall d | 0 <= d < |quotas|
      ensures Sum(Column(m.rows, d)) == EndsAt(counts, quotas, home, d)
    {
      assert QuotaConserved(m, quotas, home, d);
    }
  }

  lemma {:induction false} MigrateServes(m: Migration, counts: seq<int>, quotas: seq<int>, home: nat)
    requires Shaped(m, home) && |m.remaining| == |counts| && |m.quotas| == |quotas|
    requires Conserves(m, counts, quotas, home) && Sum(quotas) <= Sum(counts)
    ensures Migrate(m, home).Some? && Served(Migrate(m, home).value, counts, quotas, home)
    decreases NonZeros(m.remaining) + NonZeros(m.quotas)
  {
    if Done(m) {
      DoneServes(m, counts, quotas, home);
    } else {
      NeverExhausted(m, counts, quotas, home);
      MoveConserves(m, counts, quotas, home);
      MigrateServes(Move(m, home), counts, quotas, home);
    }
  }

  /** A home whose quotas do not exceed what it owns is always able to fill them exactly. */
  lemma {:induction false} HomeServes(counts: seq<int>, quotas: seq<int>, home: nat)
    requires Affordable(counts, quotas, home)
    ensures Migrate(Begin(counts, quotas, home), home).Some?
    ensures Served(Migrate(Begin(counts, quotas, home), home).value, counts, quotas, home)
  {
    BeginConserves(counts, quotas, home);
    MigrateServes(Begin(counts, quotas, home), counts, quotas, home);
  }

  // The whole table

  predicate Tables(counts: seq<int>, moves: seq<seq<int>>, perRank: nat)
  {
    perRank > 0 && |counts| == |moves| * perRank && IsTable(moves, |moves|, |moves|)
  }

  /** The block of rows that one home ends up with. */
  function HomeTable(counts: seq<int>, moves: seq<seq<int>>, perRank: nat, home: nat): (rows: Option<seq<seq<int>>>)
    requires Tables(counts, moves, perRank) && home < |moves|
    ensures rows.Some? ==> IsTable(rows.value, perRank, |moves|)
  {
    BlockWithin(home, perRank, |moves|);
    Migrate(Begin(Block(counts, home, perRank), moves[home], home), home)
  }

  /** The rows of the first `homes` homes. */
  function Allocate(counts: seq<int>, moves: seq<seq<int>>, perRank: nat, homes: nat): (rows: Option<seq<seq<int>>>)
    requires Tables(counts, moves, perRank) && homes <= |moves|
    ensures rows.Some? ==> IsTable(rows.value, homes * perRank, |moves|)
  {
    if homes == 0 then Some([])
    else
      var earlier := Allocate(counts, moves, perRank, homes - 1);
      var own := HomeTable(counts, moves, perRank, homes - 1);
      assert (homes - 1) * perRank + perRank == homes * perRank;
      if earlier.None? || own.None? then None else Some(earlier.value + own.value)
  }

  /** Every home can afford its row of `moves`. */
  ghost predicate AllAffordable(counts: seq<int>, moves: seq<seq<int>>, perRank: nat)
    requires Tables(counts, moves, perRank)
  {
    forall h :: 0 <= h < |moves| ==>
      BlockFits(h, perRank, |counts|) && Affordable(Block(counts, h, perRank), moves[h], h)
  }

  /** The rows of home `h`. */
  function RowsOf(table: seq<seq<int>>, h: nat, perRank: nat): seq<seq<int>>
    requires BlockFits(h, perRank, |table|)
  {
    table[h * perRank..h * perRank + perRank]
  }

  /** Later homes leave the rows of earlier ones alone. */
  lemma {:induction false} AllocateBlock(counts: seq<int>, moves: seq<seq<int>>, perRank: nat, homes: nat, h: nat)
    requires Tables(counts, moves, perRank) && h < homes <= |moves|
    requires Allocate(counts, moves, perRank, homes).Some?
    ensures HomeTable(counts, moves, perRank, h).Some? && BlockFits(h, perRank, homes * perRank)
    ensures RowsOf(Allocate(counts, moves, perRank, homes).value, h, perRank)
      == HomeTable(counts, moves, perRank, h).value
  {
    var last := homes - 1;
    BlockWithin(h, perRank, homes);
    var earlier := Allocate(counts, moves, perRank, last).value;
    var own := HomeTable(counts, moves, perRank, last).value;
    assert Allocate(counts, moves, perRank, homes).value == earlier + own;
    if h == last {
      assert RowsOf(earlier + own, h, perRank) == own;
    } else {
      AllocateBlock(counts, moves, perRank, last, h);
      assert RowsOf(earlier + own, h, perRank) == RowsOf(earlier, h, perRank);
    }
  }

  /** No home runs out of routes before its quotas are filled. */
  lemma {:induction false} AllocateSucceeds(counts: seq<int>, moves: seq<seq<int>>, perRank: nat, homes: nat)
    requires Tables(counts, moves, perRank) && homes <= |moves| && AllAffordable(counts, moves, perRank)
    ensures Allocate(counts, moves, perRank, homes).Some?
  {
    if homes > 0 {
      AllocateSucceeds(counts, moves, perRank, homes - 1);
      HomeServes(Block(counts, homes - 1, perRank), moves[homes - 1], homes - 1);
    }
  }

  lemma {:induction false} AllocateServes(counts: seq<int>, moves: seq<seq<int>>, perRank: nat, h: nat)
    requires Tables(counts, moves, perRank) && h < |moves| && AllAffordable(counts, moves, perRank)
    ensures Allocate(counts, moves, perRank, |moves|).Some? && BlockFits(h, perRank, |counts|)
    ensures Served(RowsOf(Allocate(counts, moves, perRank, |moves|).value, h, perRank),
                   Block(counts, h, perRank), moves[h], h)
  {
    AllocateSucceeds(counts, moves, perRank, |moves|);
    AllocateBlock(counts, moves, perRank, |moves|, h);
    HomeServes(Block(counts, h, perRank), moves[h], h);
  }

  /**
   The allocation the rest of the planner relies on: no entry is negative, every
   expert's routes are all placed, every rank receives exactly its share, and
   routes leave their home only along a move of the balancer.
   */
  ghost predicate Allocated(
    table: seq<seq<int>>, counts: seq<int>, moves: seq<seq<int>>, perRank: nat, share: int)
  {
    && Tables(counts, moves, perRank) && IsTable(table, |counts|, |moves|)
    && (forall e, d :: 0 <= e < |table| && 0 <= d < |moves| ==> table[e][d] >= 0)
    && (forall e :: 0 <= e < |table| ==> Sum(table[e]) == counts[e])
    && (forall d :: 0 <= d < |moves| ==> Sum(Column(table, d)) == share)
    && (forall e, d :: 0 <= e < |table| && 0 <= d < |moves| ==> AlongMove(table, moves, perRank, e, d))
  }

  ghost predicate AlongMove(table: seq<seq<int>>, moves: seq<seq<int>>, perRank: nat, e: nat, d: nat)
    requires perRank > 0 && e < |table| && d < |table[e]|
  {
    table[e][d] > 0 && e / perRank != d ==>
      e / perRank < |moves| && d < |moves[e / perRank]| && moves[e / perRank][d] > 0
  }

  lemma {:induction false} RowFacts(counts: seq<int>, moves: seq<seq<int>>, perRank: nat, h: nat, l: nat)
    requires Tables(counts, moves, perRank) && AllAffordable(counts, moves, perRank)
    requires h < |moves| && l < perRank && BlockFits(h, perRank, |counts|)
    ensures Allocate(counts, moves, perRank, |moves|).Some?
    ensures var row := Allocate(counts, moves, perRank, |moves|).value[h * perRank + l];
      && Sum(row) == counts[h * perRank + l]
      && (forall d :: 0 <= d < |moves| ==> row[d] >= 0 && (d != h ==> row[d] <= moves[h][d]))
  {
    AllocateServes(counts, moves, perRank, h);
    var table := Allocate(counts, moves, perRank, |moves|).value;
    ServedRow(RowsOf(table, h, perRank), Block(counts, h, perRank), moves[h], h, l);
    assert RowsOf(table, h, perRank)[l] == table[h * perRank + l];
    assert Block(counts, h, perRank)[l] == counts[h * perRank + l];
  }

  lemma {:induction false} ServedRow(rows: seq<seq<int>>, counts: seq<int>, quotas: seq<int>, home: nat, l: nat)
    requires Served(rows, counts, quotas, home) && l < |counts|
    ensures |rows| == |counts| && |rows[l]| == |quotas| && Sum(rows[l]) == counts[l]
    ensures forall d :: 0 <= d < |quotas| ==> rows[l][d] >= 0 && (d != home ==> rows[l][d] <= quotas[d])
  {
    forall d | 0 <= d < |quotas| && d != home
      ensures rows[l][d] <= quotas[d]
    {
      SumAtLeast(Column(rows, d), l);
    }
  }

  /** The home of an expert and its place there. */
  lemma {:induction false} Locate(e: nat, ranks: nat, perRank: nat) returns (h: nat, l: nat)
    requires perRank > 0 && e < ranks * perRank
    ensures h == e / perRank && h < ranks && l < perRank && e == h * perRank + l
  {
    h := e / perRank;
    DivisionBounds(e, perRank);
    l := e - h * perRank;
    if h >= ranks {
      MulMonotone(ranks, h, perRank);
    }
  }

  /** What the experts of home `h` contribute to rank `d`. */
  lemma {:induction false} ColumnOfHome(counts: seq<int>, moves: seq<seq<int>>, perRank: nat, h: nat, d: nat)
    requires Tables(counts, moves, perRank) && AllAffordable(counts, moves, perRank)
    requires h < |moves| && d < |moves|
    ensures Allocate(counts, moves, perRank, |moves|).Some? && BlockFits(h, perRank, |counts|)
    ensures Sum(Block(Column(Allocate(counts, moves, perRank, |moves|).value, d), h, perRank))
      == EndsAt(Block(counts, h, perRank), moves[h], h, d)
  {
    AllocateServes(counts, moves, perRank, h);
    var table := Allocate(counts, moves, perRank, |moves|).value;
    assert Block(Column(table, d), h, perRank) == Column(RowsOf(table, h, perRank), d);
  }

  lemma {:induction false} ColumnFacts(counts: seq<int>, moves: seq<seq<int>>, perRank: nat, d: nat)
    requires Tables(counts, moves, perRank) && AllAffordable(counts, moves, perRank)
    requires d < |moves| && moves[d][d] == 0
    ensures Allocate(counts, moves, perRank, |moves|).Some?
    ensures Sum(Column(Allocate(counts, moves, perRank, |moves|).value, d))
      == Owned(counts, |moves|, perRank, d) - Sum(moves[d]) + Sum(Column(moves, d))
  {
    AllocateSucceeds(counts, moves, perRank, |moves|);
    var column := Column(Allocate(counts, moves, perRank, |moves|).value, d);
    var totals := Column(moves, d)[d := Owned(counts, |moves|, perRank, d) - Sum(moves[d])];
    forall h | 0 <= h < |totals|
      ensures BlockFits(h, perRank, |column|) && totals[h] == Sum(Block(column, h, perRank))
    {
      ColumnOfHome(counts, moves, perRank, h, d);
    }
    SumBlocks(column, perRank, totals);
    SumUpdate(Column(moves, d), d, totals[d]);
  }

  /** The balancer never asks a home for more than it owns. */
  lemma {:induction false} MovesAffordable(counts: seq<int>, moves: seq<seq<int>>, perRank: nat, share: int, h: nat)
    requires Tables(counts, moves, perRank) && SingleDonor(moves, |moves|) && h < |moves|
    requires forall e :: 0 <= e < |counts| ==> counts[e] >= 0
    requires EndsWithShare(InitialBalance(counts, |moves|, perRank, share), share, moves, h)
    ensures BlockFits(h, perRank, |counts|) && Affordable(Block(counts, h, perRank), moves[h], h)
  {
    BlockWithin(h, perRank, |moves|);
    assert InitialBalance(counts, |moves|, perRank, share)[h] == Owned(counts, |moves|, perRank, h) - share;
  }

  lemma {:induction false} ColumnShare(counts: seq<int>, moves: seq<seq<int>>, perRank: nat, share: int, d: nat)
    requires Tables(counts, moves, perRank) && AllAffordable(counts, moves, perRank)
    requires d < |moves| && SingleDonor(moves, |moves|)
    requires EndsWithShare(InitialBalance(counts, |moves|, perRank, share), share, moves, d)
    ensures Allocate(counts, moves, perRank, |moves|).Some?
    ensures Sum(Column(Allocate(counts, moves, perRank, |moves|).value, d)) == share
  {
    ColumnFacts(counts, moves, perRank, d);
    assert InitialBalance(counts, |moves|, perRank, share)[d] == Owned(counts, |moves|, perRank, d) - share;
  }

  /**
   When the balancer's moves are such that every rank ends with its share and
   gives no more than it owns, the allocation succeeds and gives every rank
   exactly its share.
   */
  lemma {:induction false} AllocationGuarantee(counts: seq<int>, moves: seq<seq<int>>, perRank: nat, share: int)
    requires Tables(counts, moves, perRank) && SingleDonor(moves, |moves|)
    requires forall e :: 0 <= e < |counts| ==> counts[e] >= 0
    requires forall h :: 0 <= h < |moves| ==>
      EndsWithShare(InitialBalance(counts, |moves|, perRank, share), share, moves, h)
    ensures Allocate(counts, moves, perRank, |moves|).Some?
    ensures Allocated(Allocate(counts, moves, perRank, |moves|).value, counts, moves, perRank, share)
  {
    forall h | 0 <= h < |moves|
      ensures BlockFits(h, perRank, |counts|) && Affordable(Block(counts, h, perRank), moves[h], h)
    {
      MovesAffordable(counts, moves, perRank, share, h);
    }
    AllocateSucceeds(counts, moves, perRank, |moves|);
    var table := Allocate(counts, moves, perRank, |moves|).value;
    forall e | 0 <= e < |counts|
      ensures Sum(table[e]) == counts[e]
      ensures forall d :: 0 <= d < |moves| ==> table[e][d] >= 0
      ensures forall d :: 0 <= d < |moves| ==> AlongMove(table, moves, perRank, e, d)
    {
      var h, l := Locate(e, |moves|, perRank);
      RowFacts(counts, moves, perRank, h, l);
    }
    forall d | 0 <= d < |moves|
      ensures Sum(Column(table, d)) == share
    {
      ColumnShare(counts, moves, perRank, share, d);
    }
  }

  /** Routes that reach a rank from elsewhere all come from one home. */
  lemma {:induction false} OneDonorHome(
    table: seq<seq<int>>, counts: seq<int>, moves: seq<seq<int>>, perRank: nat, share: int, d: nat, e: nat, f: nat)
    requires Allocated(table, counts, moves, perRank, share) && SingleDonor(moves, |moves|)
    requires d < |moves| && e < |table| && f < |table|
    requires table[e][d] > 0 && e / perRank != d && table[f][d] > 0 && f / perRank != d
    ensures e / perRank == f / perRank
  {
    assert AlongMove(table, moves, perRank, e, d);
    assert AlongMove(table, moves, perRank, f, d);
  }

  /** Every expert that sends routes to `d` lives on `d` or on the one rank that fills it. */
  lemma {:induction false} TwoHomes(
    table: seq<seq<int>>, counts: seq<int>, moves: seq<seq<int>>, perRank: nat, share: int, d: nat)
    returns (donor: nat)
    requires Allocated(table, counts, moves, perRank, share) && SingleDonor(moves, |moves|) && d < |moves|
    ensures forall e :: 0 <= e < |table| && table[e][d] > 0 ==> e / perRank == d || e / perRank == donor
  {
    donor := d;
    if e :| 0 <= e < |table| && table[e][d] > 0 && e / perRank != d {
      donor := e / perRank;
      forall f | 0 <= f < |table| && table[f][d] > 0
        ensures f / perRank == d || f / perRank == donor
      {
        if f / perRank != d {
          OneDonorHome(table, counts, moves, perRank, share, d, e, f);
        }
      }
    }
  }
}
