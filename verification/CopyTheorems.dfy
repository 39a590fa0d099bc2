/**
 The metadata of weight copies: which experts each rank is sent, and the counts
 of incoming and outgoing copies that the plans of all ranks report.
 */
module CopyTheorems {
  import opened Sums
  import opened Layout
  import opened PlanTables
  import opened PlannerPhases
  import opened Planner
  import opened PlanTheorems
  import opened Wrappers

  /** Entries of a copy list that name an expert. */
  function Live(copy: seq<int>): nat
  {
    if |copy| == 0 then 0 else Live(copy[..|copy| - 1]) + (if copy[|copy| - 1] >= 0 then 1 else 0)
  }

  lemma {:induction false} LiveAppend(a: seq<int>, b: seq<int>)
    ensures Live(a + b) == Live(a) + Live(b)
  {
    if |b| == 0 {
      assert a + b == a;
    } else {
      LiveAppend(a, b[..|b| - 1]);
      assert (a + b)[..|a + b| - 1] == a + b[..|b| - 1];
    }
  }

  /** A copy row is live in its first entries, as many as there are remote experts or slots. */
  lemma {:induction false} LiveCopyRow(remote: seq<int>, slots: nat)
    requires forall i :: 0 <= i < |remote| ==> remote[i] >= 0
    ensures Live(CopyRow(remote, slots)) == if |remote| < slots then |remote| else slots
  {
    if slots > 0 {
      LiveCopyRow(remote, slots - 1);
      assert CopyRow(remote, slots)[..slots - 1] == CopyRow(remote, slots - 1);
    }
  }

  /** Every live entry belongs to exactly one home. */
  lemma {:induction false} FromHomeTotal(copy: seq<int>, perRank: nat, ranks: nat, row: seq<int>)
    requires perRank > 0 && |row| == ranks && forall s :: 0 <= s < |copy| ==> copy[s] < ranks * perRank
    requires forall h :: 0 <= h < ranks ==> row[h] == FromHome(copy, perRank, h)
    ensures Sum(row) == Live(copy)
  {
    if |copy| == 0 {
      SumConstant(row, 0);
    } else {
      var init, last := copy[..|copy| - 1], copy[|copy| - 1];
      if last >= 0 {
        var h, l := Allocation.Locate(last, ranks, perRank);
        FromHomeTotal(init, perRank, ranks, row[h := row[h] - 1]);
        SumUpdate(row, h, row[h] - 1);
      } else {
        FromHomeTotal(init, perRank, ranks, row);
      }
    }
  }

  /** The copies sent by all homes are the live entries of the copy list. */
  lemma {:induction false} OutgoingTotal(c: Config, table: seq<seq<int>>, n: nat)
    requires c.perRank > 0 && |table| == c.ranks * c.perRank
    ensures Sum(OutgoingRow(c, table, n)) == Live(CopyList(c, table, n))
  {
    if n == 0 {
      SumConstant(OutgoingRow(c, table, 0), 0);
    } else {
      OutgoingTotal(c, table, n - 1);
      var copy := Copies(c, table, n - 1);
      var row := seq(c.ranks, h => FromHome(copy, c.perRank, h));
      RemoteAre(c, table, n - 1);
      FromHomeTotal(copy, c.perRank, c.ranks, row);
      SumAddition(OutgoingRow(c, table, n - 1), row, OutgoingRow(c, table, n));
      LiveAppend(CopyList(c, table, n - 1), copy);
    }
  }

  function IncomingRow(c: Config, table: seq<seq<int>>, n: nat): (row: seq<int>)
    ensures |row| == n && forall d :: 0 <= d < n ==> row[d] == |Remote(c, table, d)|
  {
    seq(n, d requires 0 <= d < n => |Remote(c, table, d)|)
  }

  /** With a slot for every remote expert, every incoming copy is a live entry. */
  lemma {:induction false} IncomingTotal(c: Config, table: seq<seq<int>>, n: nat)
    requires forall d :: 0 <= d < n ==> |Remote(c, table, d)| <= c.slots
    ensures Sum(IncomingRow(c, table, n)) == Live(CopyList(c, table, n))
  {
    if n > 0 {
      IncomingTotal(c, table, n - 1);
      assert IncomingRow(c, table, n)[..n - 1] == IncomingRow(c, table, n - 1);
      RemoteAre(c, table, n - 1);
      LiveCopyRow(Remote(c, table, n - 1), c.slots);
      LiveAppend(CopyList(c, table, n - 1), Copies(c, table, n - 1));
    }
  }

  // The plans of all ranks

  ghost function IncomingStats(q: Request): (stats: seq<int>)
    requires WellFormed(q)
    ensures |stats| == q.rankSize && forall p :: 0 <= p < q.rankSize ==> stats[p] == PlanAt(q, p).remoteStats.0
  {
    seq(q.rankSize, p requires 0 <= p < q.rankSize => PlanAt(q, p).remoteStats.0)
  }

  ghost function OutgoingStats(q: Request): (stats: seq<int>)
    requires WellFormed(q)
    ensures |stats| == q.rankSize && forall p :: 0 <= p < q.rankSize ==> stats[p] == PlanAt(q, p).remoteStats.1
  {
    seq(q.rankSize, p requires 0 <= p < q.rankSize => PlanAt(q, p).remoteStats.1)
  }

  lemma {:induction false} StatsInTables(q: Request, c: Config, table: seq<seq<int>>)
    requires WellFormed(q) && Validate(q) == Ok(c) && AllocationTable(c, q.allTopk) == Some(table)
    ensures IncomingStats(q) == IncomingRow(c, table, c.ranks)
    ensures OutgoingStats(q) == OutgoingRow(c, table, c.ranks)
  {
    forall p | 0 <= p < q.rankSize
      ensures IncomingStats(q)[p] == |Remote(c, table, p)| && OutgoingStats(q)[p] == Outgoing(c, table, c.ranks, p)
    {
      var c', table' := PlanAtIs(q, p);
    }
  }

  /**
   Copy counts are conserved: what all ranks report to send is the number of
   live entries of the copy list that every rank holds, and with a prefetch slot
   per local expert it is also what all ranks report to receive.
   */
  lemma {:induction false} CopiesConserved(q: Request)
    requires WellFormed(q)
    ensures Sum(OutgoingStats(q)) == Live(PlanAt(q, q.rank).expertsToCopy)
    ensures Slots(q) == PerRank(q) ==> Sum(IncomingStats(q)) == Sum(OutgoingStats(q))
  {
    var c, table := PlanAtIs(q, q.rank);
    StatsInTables(q, c, table);
    OutgoingTotal(c, table, c.ranks);
    CopiesOf(q, c, table, q.rank);
    if Slots(q) == PerRank(q) {
      WellFormedValidates(q);
      forall d | 0 <= d < c.ranks
        ensures |Remote(c, table, d)| <= c.slots
      {
        RemoteBound(c, q.allTopk, table, d);
      }
      IncomingTotal(c, table, c.ranks);
    }
  }

  /** Places of a copy list that name an expert at home on rank `home`. */
  ghost function HomedAt(copy: seq<int>, perRank: int, home: int): set<int>
    requires perRank > 0
  {
    set s | 0 <= s < |copy| && copy[s] >= 0 && copy[s] / perRank == home
  }

  lemma {:induction false} FromHomeIs(copy: seq<int>, perRank: nat, home: int)
    requires perRank > 0
    ensures FromHome(copy, perRank, home) == |HomedAt(copy, perRank, home)|
  {
    if |copy| > 0 {
      var n := |copy| - 1;
      FromHomeIs(copy[..n], perRank, home);
      var before := HomedAt(copy[..n], perRank, home);
      if copy[n] >= 0 && copy[n] / perRank == home {
        assert HomedAt(copy, perRank, home) == before + {n};
      } else {
        assert HomedAt(copy, perRank, home) == before;
      }
    }
  }

  lemma {:induction false} FromHomeAppend(a: seq<int>, b: seq<int>, perRank: nat, home: int)
    requires perRank > 0
    ensures FromHome(a + b, perRank, home) == FromHome(a, perRank, home) + FromHome(b, perRank, home)
  {
    if |b| == 0 {
      assert a + b == a;
    } else {
      FromHomeAppend(a, b[..|b| - 1], perRank, home);
      assert (a + b)[..|a + b| - 1] == a + b[..|b| - 1];
    }
  }

  lemma {:induction false} OutgoingIs(c: Config, table: seq<seq<int>>, n: nat, h: int)
    requires c.perRank > 0
    ensures Outgoing(c, table, n, h) == FromHome(CopyList(c, table, n), c.perRank, h)
  {
    if n > 0 {
      OutgoingIs(c, table, n - 1, h);
      FromHomeAppend(CopyList(c, table, n - 1), Copies(c, table, n - 1), c.perRank, h);
    }
  }

  /** Every rank reports to send exactly the live entries of its copy list whose experts are at home there. */
  lemma {:induction false} OutgoingExact(q: Request, p: int)
    requires WellFormed(q) && 0 <= p < q.rankSize
    ensures PerRank(q) > 0
    ensures PlanAt(q, p).remoteStats.1 == |HomedAt(PlanAt(q, p).expertsToCopy, PerRank(q), p)|
  {
    var c, table := PlanAtIs(q, p);
    CopiesOf(q, c, table, p);
    WellFormedValidates(q);
    OutgoingIs(c, table, c.ranks, p);
    FromHomeIs(PlanAt(q, p).expertsToCopy, c.perRank, p);
  }

  /** The remote experts of a rank all live on one other rank. */
  lemma {:induction false} OneDonor(c: Config, routes: seq<int>, table: seq<seq<int>>, d: nat) returns (donor: int)
    requires Sound(c, routes, table) && d < c.ranks
    ensures donor != d && forall e :: e in Remote(c, table, d) ==> e / c.perRank == donor
  {
    RemoteAre(c, table, d);
    var home := Allocation.TwoHomes(
      table, RouteCounts.Histogram(routes, c.Experts()), Moves(c, routes), c.perRank, c.share, d);
    donor := if home == d then -1 else home;
    forall e | e in Remote(c, table, d)
      ensures e / c.perRank == donor
    {
      BlockOf(e, d, c.perRank);
    }
  }

  /** The first `live` entries are distinct experts at home on rank `donor`; the others are unused. */
  ghost predicate CopyShape(row: seq<int>, live: int, donor: int, perRank: int, experts: int)
    requires perRank > 0
  {
    && 0 <= live <= |row|
    && (forall s :: 0 <= s < live ==> 0 <= row[s] < experts && row[s] / perRank == donor)
    && (forall s, t :: 0 <= s < t < live ==> row[s] != row[t])
    && (forall s :: live <= s < |row| ==> row[s] == -1)
  }

  lemma {:induction false} CopiesShape(c: Config, routes: seq<int>, table: seq<seq<int>>, d: nat)
    returns (live: nat, donor: int)
    requires Sound(c, routes, table) && d < c.ranks
    ensures live == if |Remote(c, table, d)| < c.slots then |Remote(c, table, d)| else c.slots
    ensures donor != d && CopyShape(Copies(c, table, d), live, donor, c.perRank, |table|)
  {
    var remote := Remote(c, table, d);
    live := if |remote| < c.slots then |remote| else c.slots;
    RemoteAre(c, table, d);
    donor := OneDonor(c, routes, table, d);
    assert forall s :: 0 <= s < |remote| ==> remote[s] in remote;
  }

  /**
   A row of the copy list names distinct experts, all of them at home on one
   other rank, and then only unused slots. Its live length is the number of
   incoming copies, cut to the available slots.
   */
  lemma {:induction false} CopyRowShape(q: Request, d: int) returns (live: nat, donor: int)
    requires WellFormed(q) && 0 <= d < q.rankSize
    ensures var incoming := PlanAt(q, d).remoteStats.0; live == if incoming < Slots(q) then incoming else Slots(q)
    ensures donor != d && CopyShape(CopyRowOf(q, d), live, donor, PerRank(q), q.expertCount)
  {
    var c, table := PlanAtIs(q, d);
    CopyRowOfIs(q, c, table, d);
    live, donor := CopiesShape(c, q.allTopk, table, d);
    WellFormedValidates(q);
  }
}
