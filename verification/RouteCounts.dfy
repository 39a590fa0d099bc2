/**
 Counting routes per expert. A routing table lists, source rank after source
 rank, the expert of every route. `Occurrences(routes, n, e)` is the number of
 the first `n` routes that go to expert `e`; every table of counts that the
 planner keeps is a value of this one function.
 */
module RouteCounts {
  import opened Sums

  function Occurrences(routes: seq<int>, n: nat, expert: int): (c: nat)
    requires n <= |routes|
    ensures c <= n
  {
    if n == 0 then 0
    else Occurrences(routes, n - 1, expert) + (if routes[n - 1] == expert then 1 else 0)
  }

  predicate ValidRoutes(routes: seq<int>, experts: int)
  {
    forall i :: 0 <= i < |routes| ==> 0 <= routes[i] < experts
  }

  /** The number of routes of every expert. */
  function Histogram(routes: seq<int>, experts: nat): (h: seq<int>)
    ensures |h| == experts
    ensures forall e :: 0 <= e < experts ==> h[e] == Occurrences(routes, |routes|, e)
  {
    seq(experts, e => Occurrences(routes, |routes|, e))
  }

  lemma {:induction false} OccurrencesMonotone(routes: seq<int>, i: nat, j: nat, expert: int)
    requires i <= j <= |routes|
    ensures Occurrences(routes, i, expert) <= Occurrences(routes, j, expert)
    ensures i < j && routes[i] == expert ==> Occurrences(routes, i, expert) < Occurrences(routes, j, expert)
  {
    if i < j {
      OccurrencesMonotone(routes, i, j - 1, expert);
    }
  }

  /** Every occurrence number below the total belongs to some route. */
  lemma {:induction false} OccurrenceExists(routes: seq<int>, n: nat, expert: int, g: nat) returns (i: nat)
    requires n <= |routes| && g < Occurrences(routes, n, expert)
    ensures i < n && routes[i] == expert && Occurrences(routes, i, expert) == g
  {
    if routes[n - 1] == expert && Occurrences(routes, n - 1, expert) == g {
      i := n - 1;
    } else {
      i := OccurrenceExists(routes, n - 1, expert, g);
    }
  }

  /** Two routes of one expert never share an occurrence number. */
  lemma {:induction false} OccurrenceInjective(routes: seq<int>, i: nat, j: nat)
    requires i < |routes| && j < |routes| && routes[i] == routes[j]
    requires Occurrences(routes, i, routes[i]) == Occurrences(routes, j, routes[j])
    ensures i == j
  {
    var expert := routes[i];
    if i < j {
      OccurrencesMonotone(routes, i, j, expert);
    } else if j < i {
      OccurrencesMonotone(routes, j, i, expert);
    }
  }

  /** Every route is counted for exactly one expert. */
  lemma {:induction false} OccurrencesTotal(routes: seq<int>, n: nat, counts: seq<int>)
    requires n <= |routes| && ValidRoutes(routes, |counts|)
    requires forall e :: 0 <= e < |counts| ==> counts[e] == Occurrences(routes, n, e)
    ensures Sum(counts) == n
  {
    if n == 0 {
      SumConstant(counts, 0);
    } else {
      var e := routes[n - 1];
      var before := counts[e := counts[e] - 1];
      OccurrencesTotal(routes, n - 1, before);
      SumUpdate(counts, e, counts[e] - 1);
    }
  }

  lemma {:induction false} HistogramTotal(routes: seq<int>, experts: nat)
    requires ValidRoutes(routes, experts)
    ensures Sum(Histogram(routes, experts)) == |routes|
  {
    OccurrencesTotal(routes, |routes|, Histogram(routes, experts));
  }

  /** Only what happens before `n` matters. */
  lemma {:induction false} OccurrencesPrefix(a: seq<int>, b: seq<int>, n: nat, expert: int)
    requires n <= |a| && n <= |b| && a[..n] == b[..n]
    ensures Occurrences(a, n, expert) == Occurrences(b, n, expert)
  {
    if n > 0 {
      assert a[..n - 1] == a[..n][..n - 1] == b[..n][..n - 1] == b[..n - 1];
      assert a[n - 1] == a[..n][n - 1] == b[..n][n - 1];
      OccurrencesPrefix(a, b, n - 1, expert);
    }
  }
}
