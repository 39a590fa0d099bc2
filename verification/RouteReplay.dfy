/**
 Route replay: from a histogram of routes per expert, rebuild a routing table of
 S tokens with K distinct experts each that has this histogram. Each token takes
 the K experts with the most routes left.
 */
module RouteReplay {
  import opened Sums
  import opened RouteCounts
  import opened Wrappers

  datatype ReplayError =
    | InvalidDimensions
    | CountOutOfRange
    | SumMismatch
    | NotEnoughExperts
    | LeftOver

  /** The heap holds (-count, expert) for every expert with routes left. */
  type Item = (int, int)

  predicate Less(a: Item, b: Item)
  {
    a.0 < b.0 || (a.0 == b.0 && a.1 < b.1)
  }

  ghost function HeapOf(remaining: seq<int>): set<Item>
  {
    set e | 0 <= e < |remaining| && remaining[e] > 0 :: (-remaining[e], e)
  }

  /** Pop the least item. */
  method HeapPop(heap: set<Item>) returns (least: Item, rest: set<Item>)
    requires heap != {}
    ensures least in heap && rest == heap - {least}
    ensures forall x :: x in rest ==> Less(least, x)
  {
    var todo := heap;
    least :| least in todo;
    todo := todo - {least};
    while todo != {}
      invariant todo < heap && least in heap && least !in todo
      invariant forall x :: x in heap && x !in todo && x != least ==> Less(least, x)
      decreases |todo|
    {
      var x :| x in todo;
      if Less(x, least) {
        least := x;
      }
      todo := todo - {x};
    }
    rest := heap - {least};
  }

  // What a histogram has to satisfy

  /** `m` tokens are left, and the histogram can still be realised by them. */
  ghost predicate Feasible(remaining: seq<int>, m: nat, topk: nat)
  {
    && (forall e :: 0 <= e < |remaining| ==> 0 <= remaining[e] <= m)
    && Sum(remaining) == m * topk
  }

  /** Expert `e` comes before expert `f`: it has more routes left, or as many and the smaller number. */
  predicate Precedes(remaining: seq<int>, e: nat, f: nat)
    requires e < |remaining| && f < |remaining|
  {
    remaining[e] > remaining[f] || (remaining[e] == remaining[f] && e < f)
  }

  /** The first `topk` experts in this order, each with routes left. */
  ghost predicate Selection(remaining: seq<int>, chosen: seq<int>, topk: nat)
  {
    && |chosen| == topk && Distinct(chosen)
    && (forall i :: 0 <= i < topk ==> 0 <= chosen[i] < |remaining| && remaining[chosen[i]] > 0)
    && (forall i, j :: 0 <= i < j < topk ==> Precedes(remaining, chosen[i], chosen[j]))
    && (forall i, f :: 0 <= i < topk && 0 <= f < |remaining| && f !in chosen ==> Precedes(remaining, chosen[i], f))
  }

  /** One route less for every chosen expert. */
  function Decrement(remaining: seq<int>, chosen: seq<int>): (r: seq<int>)
    ensures |r| == |remaining|
    ensures forall e :: 0 <= e < |r| ==> r[e] == remaining[e] - (if e in chosen then 1 else 0)
  {
    seq(|remaining|, e requires 0 <= e < |remaining| => remaining[e] - (if e in chosen then 1 else 0))
  }

  lemma {:induction false} DecrementSum(remaining: seq<int>, chosen: seq<int>)
    requires Distinct(chosen) && forall i :: 0 <= i < |chosen| ==> 0 <= chosen[i] < |remaining|
    ensures Sum(Decrement(remaining, chosen)) == Sum(remaining) - |chosen|
  {
    if |chosen| == 0 {
      assert Decrement(remaining, chosen) == remaining;
    } else {
      var init, last := chosen[..|chosen| - 1], chosen[|chosen| - 1];
      DecrementSum(remaining, init);
      assert chosen == init + [last];
      assert last !in init;
      assert Decrement(remaining, chosen) == Decrement(remaining, init)[last := remaining[last] - 1];
      SumUpdate(Decrement(remaining, init), last, remaining[last] - 1);
    }
  }

  /** Distinct entries that are all at least `m` weigh at least as much as their number says. */
  lemma {:induction false} SumOfLarge(s: seq<int>, chosen: seq<int>, m: int)
    requires Distinct(chosen) && forall e :: 0 <= e < |s| ==> s[e] >= 0
    requires forall i :: 0 <= i < |chosen| ==> 0 <= chosen[i] < |s| && s[chosen[i]] >= m
    ensures Sum(s) >= |chosen| * m
    decreases |chosen|
  {
    if |chosen| == 0 {
      SumNonNegative(s);
    } else {
      var init, last := chosen[..|chosen| - 1], chosen[|chosen| - 1];
      var s' := s[last := 0];
      SumUpdate(s, last, 0);
      SumOfLarge(s', init, m);
      assert |chosen| * m == |init| * m + m;
    }
  }

  /** The largest counts are chosen, so no count can stay as large as the tokens that were left. */
  lemma {:induction false} LargestChosen(remaining: seq<int>, m: nat, topk: nat, chosen: seq<int>, f: nat)
    requires Feasible(remaining, m, topk) && m > 0 && Selection(remaining, chosen, topk)
    requires f < |remaining| && f !in chosen
    ensures remaining[f] < m
  {
    assert (topk + 1) * m == m * topk + m;
    if remaining[f] == m {
      SumOfLarge(remaining, chosen + [f], m);
    }
  }

  /** Choosing the experts with the most routes left keeps the histogram feasible. */
  lemma {:induction false} SelectionFeasible(remaining: seq<int>, m: nat, topk: nat, chosen: seq<int>)
    requires Feasible(remaining, m, topk) && m > 0 && Selection(remaining, chosen, topk)
    ensures Feasible(Decrement(remaining, chosen), m - 1, topk)
  {
    DecrementSum(remaining, chosen);
    assert m * topk == (m - 1) * topk + topk;
    forall e | 0 <= e < |remaining|
      ensures 0 <= Decrement(remaining, chosen)[e] <= m - 1
    {
      if e in chosen {
        var i :| 0 <= i < |chosen| && chosen[i] == e;
      } else {
        LargestChosen(remaining, m, topk, chosen, e);
      }
    }
  }

  /** A feasible histogram always has K experts to choose from. */
  lemma {:induction false} EnoughExperts(remaining: seq<int>, m: nat, topk: nat)
    requires Feasible(remaining, m, topk) && m > 0
    ensures |HeapOf(remaining)| >= topk
  {
    HeapWeight(remaining, m);
    assert (topk - 1) * m + m == m * topk;
    if |HeapOf(remaining)| < topk {
      MulMonotone(|HeapOf(remaining)|, topk - 1, m);
    }
  }

  lemma {:induction false} HeapWeight(remaining: seq<int>, m: nat)
    requires forall e :: 0 <= e < |remaining| ==> 0 <= remaining[e] <= m
    ensures Sum(remaining) <= |HeapOf(remaining)| * m
  {
    if |remaining| > 0 {
      var n := |remaining| - 1;
      var init := remaining[..n];
      HeapWeight(init, m);
      HeapSnoc(remaining);
      var k := |HeapOf(init)|;
      assert (k + 1) * m == k * m + m;
    }
  }

  lemma {:induction false} HeapSnoc(remaining: seq<int>)
    requires |remaining| > 0
    ensures |HeapOf(remaining)| ==
      |HeapOf(remaining[..|remaining| - 1])| + (if remaining[|remaining| - 1] > 0 then 1 else 0)
  {
    var n := |remaining| - 1;
    var init := HeapOf(remaining[..n]);
    if remaining[n] > 0 {
      assert HeapOf(remaining) == init + {(-remaining[n], n)};
    } else {
      assert HeapOf(remaining) == init;
    }
  }

  // One token

  function Experts(items: seq<Item>): (r: seq<int>)
    ensures |r| == |items| && forall i :: 0 <= i < |r| ==> r[i] == items[i].1
  {
    seq(|items|, i requires 0 <= i < |items| => items[i].1)
  }

  /** `selected` are items of `heap` in order, `rest` the others, all of them greater. */
  ghost predicate Popped(heap: set<Item>, selected: seq<Item>, rest: set<Item>)
  {
    && Distinct(selected) && (forall i, j :: 0 <= i < j < |selected| ==> Less(selected[i], selected[j]))
    && (forall i :: 0 <= i < |selected| ==> selected[i] in heap && selected[i] !in rest)
    && (forall x :: x in heap ==> x in rest || x in selected)
    && rest <= heap
    && (forall i, x :: 0 <= i < |selected| && x in rest ==> Less(selected[i], x))
  }

  method PopMany(heap: set<Item>, n: nat) returns (selected: seq<Item>, rest: set<Item>)
    requires n <= |heap|
    ensures |selected| == n && Popped(heap, selected, rest)
  {
    selected, rest := [], heap;
    for i := 0 to n
      invariant |selected| == i && |rest| == |heap| - i && Popped(heap, selected, rest)
    {
      var least;
      least, rest := HeapPop(rest);
      selected := selected + [least];
    }
  }

  /** The items to push back: the selected experts that still have routes. */
  ghost function Returned(selected: seq<Item>): set<Item>
  {
    set i | 0 <= i < |selected| && selected[i].0 + 1 < 0 :: (selected[i].0 + 1, selected[i].1)
  }

  method PushBack(selected: seq<Item>, rest: set<Item>) returns (heap: set<Item>)
    ensures heap == rest + Returned(selected)
  {
    heap := rest;
    assert selected[..0] == [];
    for i := 0 to |selected|
      invariant heap == rest + Returned(selected[..i])
    {
      var item := selected[i];
      if item.0 + 1 < 0 {
        heap := heap + {(item.0 + 1, item.1)};
      }
      ReturnedSnoc(selected, i);
    }
    assert selected[..|selected|] == selected;
  }

  lemma {:induction false} ReturnedSnoc(selected: seq<Item>, i: nat)
    requires i < |selected|
    ensures Returned(selected[..i + 1]) == Returned(selected[..i]) +
      (if selected[i].0 + 1 < 0 then {(selected[i].0 + 1, selected[i].1)} else {})
  {
    var longer, shorter := selected[..i + 1], selected[..i];
    forall x | x in Returned(longer)
      ensures x in Returned(shorter) || (selected[i].0 + 1 < 0 && x == (selected[i].0 + 1, selected[i].1))
    {
      var k :| 0 <= k < |longer| && longer[k].0 + 1 < 0 && x == (longer[k].0 + 1, longer[k].1);
      if k < i {
        assert shorter[k] == longer[k];
      }
    }
    forall x | x in Returned(shorter)
      ensures x in Returned(longer)
    {
      var k :| 0 <= k < |shorter| && shorter[k].0 + 1 < 0 && x == (shorter[k].0 + 1, shorter[k].1);
      assert longer[k] == shorter[k];
    }
    if selected[i].0 + 1 < 0 {
      assert longer[i] == selected[i];
    }
  }

  /** Popping the least items selects the experts with the most routes left. */
  lemma {:induction false} PoppedSelects(remaining: seq<int>, selected: seq<Item>, rest: set<Item>)
    requires Popped(HeapOf(remaining), selected, rest)
    ensures Selection(remaining, Experts(selected), |selected|)
  {
    var chosen := Experts(selected);
    forall i | 0 <= i < |selected|
      ensures 0 <= chosen[i] < |remaining| && remaining[chosen[i]] > 0 && selected[i] == (-remaining[chosen[i]], chosen[i])
    {
      assert selected[i] in HeapOf(remaining);
    }
    forall i, f | 0 <= i < |selected| && 0 <= f < |remaining| && f !in chosen
      ensures Precedes(remaining, chosen[i], f)
    {
      if remaining[f] > 0 {
        assert (-remaining[f], f) in HeapOf(remaining);
      }
    }
    forall i, j | 0 <= i < j < |selected|
      ensures Precedes(remaining, chosen[i], chosen[j])
    {
      assert Less(selected[i], selected[j]);
    }
  }

  /** The expert of a popped item is chosen, that of an item left in the heap is not. */
  lemma {:induction false} ChosenIsPopped(remaining: seq<int>, selected: seq<Item>, rest: set<Item>, e: nat)
    requires Popped(HeapOf(remaining), selected, rest) && e < |remaining|
    ensures e in Experts(selected) ==> remaining[e] > 0 && (-remaining[e], e) in selected && (-remaining[e], e) !in rest
    ensures e !in Experts(selected) ==> ((-remaining[e], e) in rest <==> remaining[e] > 0)
  {
    if e in Experts(selected) {
      var k :| 0 <= k < |selected| && Experts(selected)[k] == e;
      assert selected[k] in HeapOf(remaining);
    } else {
      assert forall k :: 0 <= k < |selected| ==> selected[k].1 == Experts(selected)[k];
      if remaining[e] > 0 {
        assert (-remaining[e], e) in HeapOf(remaining);
      }
    }
  }

  lemma {:induction false} InReturned(remaining: seq<int>, selected: seq<Item>, rest: set<Item>, e: nat)
    requires Popped(HeapOf(remaining), selected, rest) && e < |remaining|
    ensures (1 - remaining[e], e) in Returned(selected) <==> e in Experts(selected) && remaining[e] > 1
  {
    ChosenIsPopped(remaining, selected, rest, e);
    if e in Experts(selected) && remaining[e] > 1 {
      var k :| 0 <= k < |selected| && selected[k] == (-remaining[e], e);
      assert selected[k].0 + 1 < 0;
    }
    if (1 - remaining[e], e) in Returned(selected) {
      var k :| 0 <= k < |selected| && selected[k].0 + 1 < 0 && (1 - remaining[e], e) == (selected[k].0 + 1, selected[k].1);
      assert Experts(selected)[k] == e;
    }
  }

  /** Items carry the count of their expert: in the heap as it is, among the returned ones less one. */
  lemma {:induction false} ItemCounts(remaining: seq<int>, selected: seq<Item>, rest: set<Item>, x: Item)
    requires Popped(HeapOf(remaining), selected, rest)
    ensures x in rest ==> 0 <= x.1 < |remaining| && x == (-remaining[x.1], x.1)
    ensures x in Returned(selected) ==> 0 <= x.1 < |remaining| && x == (1 - remaining[x.1], x.1)
  {
    if x in rest {
      assert x in HeapOf(remaining);
    }
    if x in Returned(selected) {
      var k :| 0 <= k < |selected| && selected[k].0 + 1 < 0 && x == (selected[k].0 + 1, selected[k].1);
      assert selected[k] in HeapOf(remaining);
    }
  }

  /** Pushing back what is left of the selected experts gives the heap of the decremented histogram. */
  lemma {:induction false} ReturnedHeap(remaining: seq<int>, selected: seq<Item>, rest: set<Item>)
    requires Popped(HeapOf(remaining), selected, rest)
    ensures rest + Returned(selected) == HeapOf(Decrement(remaining, Experts(selected)))
  {
    var next := Decrement(remaining, Experts(selected));
    forall x: Item
      ensures x in rest + Returned(selected) <==> x in HeapOf(next)
    {
      ItemCounts(remaining, selected, rest, x);
      if 0 <= x.1 < |remaining| {
        ChosenIsPopped(remaining, selected, rest, x.1);
        InReturned(remaining, selected, rest, x.1);
      }
    }
  }

  // Counting the routes

  lemma {:induction false} OccurrencesAppend(a: seq<int>, b: seq<int>, n: nat, expert: int)
    requires n <= |b|
    ensures Occurrences(a + b, |a| + n, expert) == Occurrences(a, |a|, expert) + Occurrences(b, n, expert)
  {
    if n == 0 {
      OccurrencesPrefix(a + b, a, |a|, expert);
    } else {
      OccurrencesAppend(a, b, n - 1, expert);
    }
  }

  lemma {:induction false} OccurrencesDistinct(s: seq<int>, n: nat, expert: int)
    requires n <= |s| && Distinct(s)
    ensures Occurrences(s, n, expert) == if expert in s[..n] then 1 else 0
  {
    if n > 0 {
      OccurrencesDistinct(s, n - 1, expert);
      assert s[..n] == s[..n - 1] + [s[n - 1]];
    }
  }

  /** A token's routes go to distinct experts and take one route from each. */
  lemma {:induction false} TokenCounts(routes: seq<int>, chosen: seq<int>, expert: int)
    requires Distinct(chosen)
    ensures Occurrences(routes + chosen, |routes + chosen|, expert) ==
      Occurrences(routes, |routes|, expert) + (if expert in chosen then 1 else 0)
  {
    OccurrencesAppend(routes, chosen, |chosen|, expert);
    OccurrencesDistinct(chosen, |chosen|, expert);
    assert chosen[..|chosen|] == chosen;
  }

  // The replay

  /** The K routes of token `t`. */
  function TokenRow(routes: seq<int>, topk: nat, t: nat): seq<int>
    requires BlockFits(t, topk, |routes|)
  {
    Block(routes, t, topk)
  }

  /** Routes left for every expert behind the first `n` routes. */
  function Left(counts: seq<int>, routes: seq<int>, n: nat): (left: seq<int>)
    requires n <= |routes|
    ensures |left| == |counts|
    ensures forall e :: 0 <= e < |counts| ==> left[e] == counts[e] - Occurrences(routes, n, e)
  {
    seq(|counts|, e requires 0 <= e < |counts| => counts[e] - Occurrences(routes, n, e))
  }

  /** Token `t` lists the K experts with the most routes left at that point, in order. */
  ghost predicate Greedy(counts: seq<int>, routes: seq<int>, topk: nat, t: nat)
  {
    BlockFits(t, topk, |routes|) && Selection(Left(counts, routes, t * topk), TokenRow(routes, topk, t), topk)
  }

  lemma {:induction false} LeftStays(counts: seq<int>, routes: seq<int>, more: seq<int>, n: nat)
    requires n <= |routes| && routes <= more
    ensures Left(counts, more, n) == Left(counts, routes, n)
  {
    forall e | 0 <= e < |counts|
      ensures Left(counts, more, n)[e] == Left(counts, routes, n)[e]
    {
      assert more[..n] == routes[..n];
      OccurrencesPrefix(more, routes, n, e);
    }
  }

  lemma {:induction false} GreedyStays(counts: seq<int>, routes: seq<int>, more: seq<int>, topk: nat, t: nat)
    requires routes <= more && Greedy(counts, routes, topk, t)
    ensures Greedy(counts, more, topk, t)
  {
    LeftStays(counts, routes, more, t * topk);
    assert TokenRow(more, topk, t) == TokenRow(routes, topk, t);
  }

  /** After `m` tokens: K distinct experts each, chosen greedily, and the histogram less what remains. */
  ghost predicate Realised(counts: seq<int>, remaining: seq<int>, routes: seq<int>, m: nat, topk: nat)
  {
    && |remaining| == |counts| && |routes| == m * topk && ValidRoutes(routes, |counts|)
    && (forall t :: 0 <= t < m ==> Greedy(counts, routes, topk, t))
    && (forall e :: 0 <= e < |counts| ==> Occurrences(routes, |routes|, e) == counts[e] - remaining[e])
  }

  lemma {:induction false} GreedyLast(
    counts: seq<int>, remaining: seq<int>, routes: seq<int>, m: nat, topk: nat, chosen: seq<int>)
    requires Realised(counts, remaining, routes, m, topk) && Selection(remaining, chosen, topk)
    ensures Greedy(counts, routes + chosen, topk, m)
  {
    var more := routes + chosen;
    LeftStays(counts, routes, more, |routes|);
    assert Left(counts, routes, |routes|) == remaining;
    assert TokenRow(more, topk, m) == chosen;
  }

  lemma {:induction false} RealisedMore(
    counts: seq<int>, remaining: seq<int>, routes: seq<int>, m: nat, topk: nat, chosen: seq<int>)
    requires Realised(counts, remaining, routes, m, topk) && Selection(remaining, chosen, topk)
    ensures Realised(counts, Decrement(remaining, chosen), routes + chosen, m + 1, topk)
  {
    var more := routes + chosen;
    assert |more| == (m + 1) * topk by {
      assert (m + 1) * topk == m * topk + topk;
    }
    forall t | 0 <= t < m
      ensures Greedy(counts, more, topk, t)
    {
      GreedyStays(counts, routes, more, topk, t);
    }
    GreedyLast(counts, remaining, routes, m, topk, chosen);
    forall e | 0 <= e < |counts|
      ensures Occurrences(more, |more|, e) == counts[e] - Decrement(remaining, chosen)[e]
    {
      TokenCounts(routes, chosen, e);
    }
  }

  /** The first `token` tokens are placed, and what remains can be realised by the others. */
  ghost predicate OnTheWay(
    counts: seq<int>, remaining: seq<int>, routes: seq<int>, token: nat, tokens: nat, topk: nat)
  {
    && token <= tokens && Feasible(remaining, tokens - token, topk)
    && Realised(counts, remaining, routes, token, topk)
  }

  lemma {:induction false} StaysOnTheWay(
    counts: seq<int>, remaining: seq<int>, routes: seq<int>, token: nat, tokens: nat, topk: nat, chosen: seq<int>)
    requires OnTheWay(counts, remaining, routes, token, tokens, topk) && token < tokens
    requires Selection(remaining, chosen, topk)
    ensures OnTheWay(counts, Decrement(remaining, chosen), routes + chosen, token + 1, tokens, topk)
  {
    RealisedMore(counts, remaining, routes, token, topk, chosen);
    SelectionFeasible(remaining, tokens - token, topk, chosen);
  }

  /**
   The greedy loop on any histogram. A feasible histogram is always realised; for
   another one it may run out of experts or leave counts over.
   */
  method AssignRoutes(counts: seq<int>, tokens: nat, topk: nat) returns (r: Result<seq<int>, ReplayError>)
    ensures r.Err? ==> !Feasible(counts, tokens, topk)
    ensures r.Ok? && Feasible(counts, tokens, topk) ==> Realised(counts, Zeros(|counts|), r.value, tokens, topk)
  {
    var heap: set<Item> := {};
    for e := 0 to |counts|
      invariant heap == HeapOf(counts[..e])
    {
      assert counts[..e + 1] == counts[..e] + [counts[e]];
      HeapPush(counts, e);
      if counts[e] > 0 {
        heap := heap + {(-counts[e], e)};
      }
    }
    assert counts[..|counts|] == counts;
    ghost var remaining := counts;
    var routes: seq<int> := [];
    for token := 0 to tokens
      invariant heap == HeapOf(remaining)
      invariant Feasible(counts, tokens, topk) ==> OnTheWay(counts, remaining, routes, token, tokens, topk)
    {
      if Feasible(counts, tokens, topk) {
        EnoughExperts(remaining, tokens - token, topk);
      }
      if |heap| < topk {
        return Err(NotEnoughExperts);
      }
      var selected, rest := PopMany(heap, topk);
      ghost var chosen := Experts(selected);
      PoppedSelects(remaining, selected, rest);
      ReturnedHeap(remaining, selected, rest);
      if Feasible(counts, tokens, topk) {
        StaysOnTheWay(counts, remaining, routes, token, tokens, topk, chosen);
      }
      routes := routes + Experts(selected);
      heap := PushBack(selected, rest);
      remaining := Decrement(remaining, chosen);
    }
    if Feasible(counts, tokens, topk) {
      assert remaining == Zeros(|counts|);
    }
    if heap != {} {
      return Err(LeftOver);
    }
    return Ok(routes);
  }

  lemma {:induction false} HeapPush(counts: seq<int>, e: nat)
    requires e < |counts|
    ensures HeapOf(counts[..e + 1]) == HeapOf(counts[..e]) + (if counts[e] > 0 then {(-counts[e], e)} else {})
  {
  }

  /** Every token has K distinct experts. */
  ghost predicate DistinctRows(routes: seq<int>, tokens: nat, topk: nat)
  {
    forall t :: 0 <= t < tokens ==> BlockFits(t, topk, |routes|) && Distinct(TokenRow(routes, topk, t))
  }

  lemma {:induction false} RealisedTable(counts: seq<int>, routes: seq<int>, tokens: nat, topk: nat)
    requires Realised(counts, Zeros(|counts|), routes, tokens, topk)
    ensures Histogram(routes, |counts|) == counts && DistinctRows(routes, tokens, topk)
  {
    forall t | 0 <= t < tokens
      ensures BlockFits(t, topk, |routes|) && Distinct(TokenRow(routes, topk, t))
    {
      assert Greedy(counts, routes, topk, t);
    }
  }

  /** The histograms that are replayed. */
  ghost predicate Replayable(counts: seq<int>, tokens: int, topk: int)
  {
    && tokens > 0 && topk > 0 && |counts| >= topk
    && (forall e :: 0 <= e < |counts| ==> 0 <= counts[e] <= tokens)
    && Sum(counts) == tokens * topk
  }

  /**
   Replay succeeds on every histogram with entries in [0, S] that adds up to S*K,
   and on no other; the table it returns has K distinct experts per token, those with
   the most routes left in descending order, and exactly the given histogram.
   */
  method RoutesFromExpertCounts(counts: seq<int>, tokens: int, topk: int) returns (r: Result<seq<int>, ReplayError>)
    ensures r.Ok? <==> Replayable(counts, tokens, topk)
    ensures r.Ok? ==> |r.value| == tokens * topk && ValidRoutes(r.value, |counts|)
    ensures r.Ok? ==> Histogram(r.value, |counts|) == counts
    ensures r.Ok? ==> DistinctRows(r.value, tokens, topk)
    ensures r.Ok? ==> forall t :: 0 <= t < tokens ==> Greedy(counts, r.value, topk, t)
    ensures r.Err? ==> !r.error.NotEnoughExperts? && !r.error.LeftOver?
    ensures r.Err? ==> (r.error == InvalidDimensions <==> tokens <= 0 || topk <= 0 || |counts| < topk)
    ensures r.Err? ==> (r.error == SumMismatch ==> forall e :: 0 <= e < |counts| ==> 0 <= counts[e] <= tokens)
    ensures r.Err? ==> (r.error == CountOutOfRange ==> exists e :: 0 <= e < |counts| && !(0 <= counts[e] <= tokens))
  {
    if tokens <= 0 || topk <= 0 || |counts| < topk {
      return Err(InvalidDimensions);
    }
    for e := 0 to |counts|
      invariant forall k :: 0 <= k < e ==> 0 <= counts[k] <= tokens
    {
      if counts[e] < 0 || counts[e] > tokens {
        return Err(CountOutOfRange);
      }
    }
    var total := 0;
    for e := 0 to |counts|
      invariant total == Sum(counts[..e])
    {
      SumTake(counts, e);
      total := total + counts[e];
    }
    SumAll(counts);
    if total != tokens * topk {
      return Err(SumMismatch);
    }
    r := AssignRoutes(counts, tokens, topk);
    assert Replayable(counts, tokens, topk) && Feasible(counts, tokens, topk);
    RealisedTable(counts, r.value, tokens, topk);
  }
}
