/**
 The layout of one destination rank. `load[e]` is the number of routes of expert
 `e` that the rank receives. Slots are laid out in groups: one group per expert,
 then one group per prefetch slot. The experts that do not live on the rank and
 bring the most routes get the prefetch slots; their own group is then empty.
 Every nonempty group is padded to a multiple of `padding`.
 */
module Layout {
  import opened Sums

  // Remote experts and prefetch slots

  /** Does expert `e` live elsewhere and send routes here? */
  predicate IsRemote(load: seq<int>, begin: nat, perRank: nat, e: int)
  {
    0 <= e < |load| && !(begin <= e < begin + perRank) && load[e] > 0
  }

  /** Remote experts below `n`, by number. */
  function RemoteExperts(load: seq<int>, begin: nat, perRank: nat, n: nat): seq<int>
  {
    if n == 0 then [] else
      var r := RemoteExperts(load, begin, perRank, n - 1);
      if IsRemote(load, begin, perRank, n - 1) then r + [n - 1] else r
  }

  lemma {:induction false} RemoteExpertsAre(load: seq<int>, begin: nat, perRank: nat, n: nat)
    ensures forall e :: e in RemoteExperts(load, begin, perRank, n) <==> e < n && IsRemote(load, begin, perRank, e)
    ensures Distinct(RemoteExperts(load, begin, perRank, n))
  {
    if n > 0 {
      RemoteExpertsAre(load, begin, perRank, n - 1);
    }
  }

  function Pick(values: seq<int>, e: int): int
  {
    if 0 <= e < |values| then values[e] else 0
  }

  /** More routes first; among equals the larger expert number first. */
  predicate Precedes(load: seq<int>, e: int, f: int)
  {
    Pick(load, e) > Pick(load, f) || (Pick(load, e) == Pick(load, f) && e > f)
  }

  predicate Ranked(load: seq<int>, s: seq<int>)
  {
    forall i, j :: 0 <= i < j < |s| ==> Precedes(load, s[i], s[j])
  }

  function Insert(load: seq<int>, s: seq<int>, e: int): seq<int>
  {
    if |s| == 0 then [e]
    else if Precedes(load, e, s[0]) then [e] + s
    else [s[0]] + Insert(load, s[1..], e)
  }

  function SortByLoad(load: seq<int>, s: seq<int>): seq<int>
  {
    if |s| == 0 then [] else Insert(load, SortByLoad(load, s[..|s| - 1]), s[|s| - 1])
  }

  lemma {:induction false} InsertKeeps(load: seq<int>, s: seq<int>, e: int)
    requires Ranked(load, s) && e !in s
    ensures Ranked(load, Insert(load, s, e))
    ensures forall x :: x in Insert(load, s, e) <==> x in s || x == e
  {
    if |s| > 0 && !Precedes(load, e, s[0]) {
      InsertKeeps(load, s[1..], e);
      var rest := Insert(load, s[1..], e);
      assert forall x :: x in s <==> x == s[0] || x in s[1..];
      forall i | 0 <= i < |rest|
        ensures Precedes(load, s[0], rest[i])
      {
        assert rest[i] in rest;
        if rest[i] != e {
          var k :| 0 <= k < |s| - 1 && s[1..][k] == rest[i];
          assert Precedes(load, s[0], s[k + 1]);
        }
      }
    }
  }

  /** Sorting keeps the experts and puts the largest loads first. */
  lemma {:induction false} SortByLoadSorts(load: seq<int>, s: seq<int>)
    requires Distinct(s)
    ensures Ranked(load, SortByLoad(load, s))
    ensures forall x :: x in SortByLoad(load, s) <==> x in s
  {
    if |s| > 0 {
      var init, last := s[..|s| - 1], s[|s| - 1];
      SortByLoadSorts(load, init);
      InsertKeeps(load, SortByLoad(load, init), last);
      assert s == init + [last];
    }
  }

  /** The experts copied to the rank: the first remote ones, then -1. */
  function CopyRow(remote: seq<int>, slots: nat): (copy: seq<int>)
    ensures |copy| == slots
    ensures forall s :: 0 <= s < slots ==> copy[s] == if s < |remote| then remote[s] else -1
  {
    seq(slots, s requires 0 <= s < slots => if s < |remote| then remote[s] else -1)
  }

  // Groups

  /** The expert of a group, or -1 for a group that stays empty. */
  function GroupExpert(experts: nat, copy: seq<int>, g: nat): int
    requires g < experts + |copy|
  {
    if g < experts then (if g in copy then -1 else g) else copy[g - experts]
  }

  /** `values` of the expert of every group. */
  function ByGroup(values: seq<int>, copy: seq<int>): (r: seq<int>)
    ensures |r| == |values| + |copy|
    ensures forall g :: 0 <= g < |r| ==> r[g] == Pick(values, GroupExpert(|values|, copy, g))
  {
    seq(|values| + |copy|, g requires 0 <= g < |values| + |copy| =>
      Pick(values, GroupExpert(|values|, copy, g)))
  }

  /** The least sum of whole `padding` units that holds `count`. */
  function Padded(count: int, padding: nat): (p: int)
    requires padding > 0
    ensures p >= 0 && (count > 0 ==> count <= p <= count + padding - 1)
    ensures count <= 0 ==> p == 0
    decreases if count > 0 then count else 0
  {
    if count <= 0 then 0 else padding + Padded(count - padding, padding)
  }

  /** Rounding up by division, as the planner computes it, is the same. */
  lemma {:induction false} PaddedByDivision(count: int, padding: nat)
    requires padding > 0 && count > 0
    ensures Padded(count, padding) == ((count + padding - 1) / padding) * padding
    decreases count
  {
    var q := (count + padding - 1) / padding;
    DivisionBounds(count + padding - 1, padding);
    if count <= padding {
      BlockOf(count + padding - 1, 1, padding);
    } else {
      PaddedByDivision(count - padding, padding);
      DivisionStep(count - 1, padding);
    }
  }

  lemma {:induction false} DivisionStep(x: nat, padding: nat)
    requires padding > 0
    ensures ((x + padding) / padding) * padding == (x / padding) * padding + padding
  {
    DivisionBounds(x, padding);
    var q := x / padding;
    assert (q + 1) * padding == q * padding + padding;
    BlockOf(x + padding, q + 1, padding);
  }

  function PaddedAll(counts: seq<int>, padding: nat): (r: seq<int>)
    requires padding > 0
    ensures |r| == |counts| && forall g :: 0 <= g < |r| ==> r[g] == Padded(counts[g], padding)
  {
    seq(|counts|, g requires 0 <= g < |counts| => Padded(counts[g], padding))
  }

  /** Where group `g` starts: behind the padded groups before it. */
  function GroupStart(counts: seq<int>, padding: nat, g: nat): int
    requires padding > 0 && g <= |counts|
  {
    Sum(PaddedAll(counts, padding)[..g])
  }

  /** The zero-fill range of a group, as start and length; the last group's reaches to the end of the buffer. */
  function ZeroFill(counts: seq<int>, padding: nat, capacity: int, g: nat): (int, int)
    requires padding > 0 && g < |counts|
  {
    var realEnd := GroupStart(counts, padding, g) + counts[g];
    var zeroEnd := if g + 1 == |counts| then capacity else GroupStart(counts, padding, g + 1);
    if zeroEnd > realEnd then (realEnd, zeroEnd - realEnd) else (0, 0)
  }

  function IndexOf(s: seq<int>, x: int): (i: nat)
    requires x in s
    ensures i < |s| && s[i] == x
  {
    if s[0] == x then 0 else 1 + IndexOf(s[1..], x)
  }

  /** The group that holds the routes of expert `e`. */
  function GroupOf(experts: nat, copy: seq<int>, e: nat): (g: nat)
    requires e < experts
    ensures g < experts + |copy| && GroupExpert(experts, copy, g) == e
  {
    if e in copy then experts + IndexOf(copy, e) else e
  }

  // Every expert's routes are in exactly one group

  /** A copy row names experts or -1, and no expert twice. */
  ghost predicate ValidCopy(copy: seq<int>, experts: nat)
  {
    && (forall s :: 0 <= s < |copy| ==> -1 <= copy[s] < experts)
    && (forall s, t :: 0 <= s < t < |copy| && copy[s] == copy[t] ==> copy[s] == -1)
  }

  lemma {:induction false} CopyRowValid(load: seq<int>, remote: seq<int>, slots: nat)
    requires Ranked(load, remote) && forall i :: 0 <= i < |remote| ==> 0 <= remote[i] < |load|
    ensures ValidCopy(CopyRow(remote, slots), |load|)
  {
    forall s, t | 0 <= s < t < |remote|
      ensures remote[s] != remote[t]
    {
      assert Precedes(load, remote[s], remote[t]);
    }
  }

  lemma {:induction false} GroupOfUnique(experts: nat, copy: seq<int>, g: nat, e: nat)
    requires ValidCopy(copy, experts) && g < experts + |copy| && e < experts
    requires GroupExpert(experts, copy, g) == e
    ensures g == GroupOf(experts, copy, e)
  {
    if g >= experts {
      var s, t := g - experts, IndexOf(copy, e);
      assert copy[s] == copy[t] == e;
    }
  }

  lemma {:induction false} ByGroupSnocEmpty(values: seq<int>, copy: seq<int>)
    ensures ByGroup(values, copy + [-1]) == ByGroup(values, copy) + [0]
  {
    var longer := copy + [-1];
    assert forall g :: 0 <= g < |values| ==> (g in longer <==> g in copy);
  }

  lemma {:induction false} ByGroupSnocExpert(values: seq<int>, copy: seq<int>, e: nat)
    requires e < |values| && e !in copy
    ensures ByGroup(values, copy)[e] == values[e]
    ensures ByGroup(values, copy + [e]) == ByGroup(values, copy)[e := 0] + [values[e]]
  {
    var longer := copy + [e];
    assert forall g :: 0 <= g < |values| ==> (g in longer <==> g in copy || g == e);
  }

  /** Regrouping moves values around and loses none. */
  lemma {:induction false} ByGroupSum(values: seq<int>, copy: seq<int>)
    requires ValidCopy(copy, |values|)
    ensures Sum(ByGroup(values, copy)) == Sum(values)
  {
    if |copy| == 0 {
      assert ByGroup(values, copy) == values;
    } else {
      var init, last := copy[..|copy| - 1], copy[|copy| - 1];
      ByGroupSum(values, init);
      assert copy == init + [last];
      var before := ByGroup(values, init);
      if last == -1 {
        ByGroupSnocEmpty(values, init);
        SumAppend(before, [0]);
      } else {
        ByGroupSnocExpert(values, init, last);
        SumAppend(before[last := 0], [values[last]]);
        SumUpdate(before, last, 0);
      }
    }
  }

  lemma {:induction false} PaddedByGroup(load: seq<int>, copy: seq<int>, padding: nat)
    requires padding > 0
    ensures PaddedAll(ByGroup(load, copy), padding) == ByGroup(PaddedAll(load, padding), copy)
  {
    var left, right := PaddedAll(ByGroup(load, copy), padding), ByGroup(PaddedAll(load, padding), copy);
    forall g | 0 <= g < |left|
      ensures left[g] == right[g]
    {
      var e := GroupExpert(|load|, copy, g);
    }
  }

  // The padded layout fits

  /** The experts that bring routes. */
  function Bringing(load: seq<int>): set<int>
  {
    set e | 0 <= e < |load| && load[e] > 0
  }

  /** Each nonempty group costs less than one unit of padding. */
  lemma {:induction false} PaddingCost(load: seq<int>, padded: seq<int>, waste: nat)
    requires |padded| == |load|
    requires forall e :: 0 <= e < |load| ==>
      padded[e] <= if load[e] > 0 then load[e] + waste else load[e]
    ensures Sum(padded) <= Sum(load) + |Bringing(load)| * waste
  {
    if |load| > 0 {
      var n := |load| - 1;
      PaddingCost(load[..n], padded[..n], waste);
      BringingSnoc(load);
      var k := |Bringing(load[..n])|;
      assert (k + 1) * waste == k * waste + waste;
    }
  }

  lemma {:induction false} BringingSnoc(load: seq<int>)
    requires |load| > 0
    ensures |Bringing(load)| == |Bringing(load[..|load| - 1])| + (if load[|load| - 1] > 0 then 1 else 0)
  {
    var n := |load| - 1;
    var init := Bringing(load[..n]);
    if load[n] > 0 {
      assert Bringing(load) == init + {n};
    } else {
      assert Bringing(load) == init;
    }
  }

  /** Where routes come from only two blocks of experts, the padded groups fit the buffer. */
  lemma {:induction false} LayoutFits(load: seq<int>, copy: seq<int>, padding: nat, perRank: nat, local: int, donor: int)
    requires padding > 0 && ValidCopy(copy, |load|)
    requires forall e :: 0 <= e < |load| ==> load[e] >= 0
    requires Bringing(load) <= Interval(local, perRank) + Interval(donor, perRank)
    ensures GroupStart(ByGroup(load, copy), padding, |load| + |copy|) <= Sum(load) + (padding - 1) * 2 * perRank
  {
    TotalPadded(load, copy, padding);
    PaddedCost(load, padding);
    TwoBlocks(load, perRank, local, donor);
    WasteBound(|Bringing(load)|, perRank, padding - 1);
  }

  lemma {:induction false} PaddedCost(load: seq<int>, padding: nat)
    requires padding > 0 && forall e :: 0 <= e < |load| ==> load[e] >= 0
    ensures Sum(PaddedAll(load, padding)) <= Sum(load) + |Bringing(load)| * (padding - 1)
  {
    PaddingCost(load, PaddedAll(load, padding), padding - 1);
  }

  lemma {:induction false} TotalPadded(load: seq<int>, copy: seq<int>, padding: nat)
    requires padding > 0 && ValidCopy(copy, |load|)
    ensures GroupStart(ByGroup(load, copy), padding, |load| + |copy|) == Sum(PaddedAll(load, padding))
  {
    SumAll(PaddedAll(ByGroup(load, copy), padding));
    PaddedByGroup(load, copy, padding);
    ByGroupSum(PaddedAll(load, padding), copy);
  }

  lemma {:induction false} TwoBlocks(load: seq<int>, perRank: nat, local: int, donor: int)
    requires Bringing(load) <= Interval(local, perRank) + Interval(donor, perRank)
    ensures |Bringing(load)| <= 2 * perRank
  {
    var a, b := Interval(local, perRank), Interval(donor, perRank);
    SubsetCard(Bringing(load), a + b);
    assert |a + b| <= |a| + |b|;
  }

  lemma {:induction false} WasteBound(k: nat, perRank: nat, waste: nat)
    requires k <= 2 * perRank
    ensures k * waste <= waste * 2 * perRank
  {
    MulMonotone(k, 2 * perRank, waste);
  }

  // Slots

  /** Slot `x` receives a route of group `g`. */
  predicate InReal(counts: seq<int>, padding: nat, g: int, x: int)
    requires padding > 0
  {
    0 <= g < |counts| && GroupStart(counts, padding, g) <= x < GroupStart(counts, padding, g) + counts[g]
  }

  /** Slot `x` is cleared by the zero-fill range of group `g`. */
  predicate InZero(counts: seq<int>, padding: nat, capacity: int, g: int, x: int)
    requires padding > 0
  {
    && 0 <= g < |counts|
    && var fill := ZeroFill(counts, padding, capacity, g); fill.0 <= x < fill.0 + fill.1
  }

  /** The slots of group `g`: up to the next group, or to the end of the buffer. */
  predicate InSpan(counts: seq<int>, padding: nat, capacity: int, g: int, x: int)
    requires padding > 0
  {
    && 0 <= g < |counts|
    && GroupStart(counts, padding, g) <= x
    && x < if g + 1 == |counts| then capacity else GroupStart(counts, padding, g + 1)
  }

  /** Counts are never negative and their padded groups fit the buffer. */
  ghost predicate Fits(counts: seq<int>, padding: nat, capacity: int)
    requires padding > 0
  {
    && |counts| > 0
    && (forall g :: 0 <= g < |counts| ==> counts[g] >= 0)
    && GroupStart(counts, padding, |counts|) <= capacity
  }

  lemma {:induction false} GroupStartStep(counts: seq<int>, padding: nat, g: nat)
    requires padding > 0 && g < |counts|
    ensures GroupStart(counts, padding, g + 1) == GroupStart(counts, padding, g) + Padded(counts[g], padding)
  {
    SumTake(PaddedAll(counts, padding), g);
  }

  lemma {:induction false} GroupStartMonotone(counts: seq<int>, padding: nat, g: nat, h: nat)
    requires padding > 0 && g <= h <= |counts|
    ensures GroupStart(counts, padding, g) <= GroupStart(counts, padding, h)
  {
    SumPrefixMonotone(PaddedAll(counts, padding), g, h);
  }

  lemma {:induction false} SpanUnique(counts: seq<int>, padding: nat, capacity: int, g: nat, h: nat, x: int)
    requires padding > 0
    requires InSpan(counts, padding, capacity, g, x) && InSpan(counts, padding, capacity, h, x)
    ensures g == h
  {
    if g < h {
      GroupStartMonotone(counts, padding, g + 1, h);
    } else if h < g {
      GroupStartMonotone(counts, padding, h + 1, g);
    }
  }

  lemma {:induction false} SpanExists(counts: seq<int>, padding: nat, capacity: int, x: int, n: nat) returns (g: nat)
    requires padding > 0 && 0 < n <= |counts| && 0 <= x
    requires x < if n == |counts| then capacity else GroupStart(counts, padding, n)
    ensures InSpan(counts, padding, capacity, g, x)
  {
    if GroupStart(counts, padding, n - 1) <= x {
      g := n - 1;
    } else {
      g := SpanExists(counts, padding, capacity, x, n - 1);
    }
  }

  /** A slot of a group's span is either received or cleared, never both. */
  lemma {:induction false} SpanSplits(counts: seq<int>, padding: nat, capacity: int, g: nat, x: int)
    requires padding > 0 && Fits(counts, padding, capacity) && g < |counts|
    ensures InSpan(counts, padding, capacity, g, x) <==>
      InReal(counts, padding, g, x) || InZero(counts, padding, capacity, g, x)
    ensures !(InReal(counts, padding, g, x) && InZero(counts, padding, capacity, g, x))
  {
    GroupStartStep(counts, padding, g);
  }

  /**
   The received slots and the zero-fill ranges partition the buffer: every slot
   belongs to exactly one group, which either receives it or clears it.
   */
  lemma {:induction false} SlotPartition(counts: seq<int>, padding: nat, capacity: int, x: int) returns (g: nat)
    requires padding > 0 && Fits(counts, padding, capacity) && 0 <= x < capacity
    ensures g < |counts|
    ensures InReal(counts, padding, g, x) <==> !InZero(counts, padding, capacity, g, x)
    ensures forall h :: h != g ==> !InReal(counts, padding, h, x) && !InZero(counts, padding, capacity, h, x)
  {
    g := SpanExists(counts, padding, capacity, x, |counts|);
    SpanSplits(counts, padding, capacity, g, x);
    forall h | h != g
      ensures !InReal(counts, padding, h, x) && !InZero(counts, padding, capacity, h, x)
    {
      if 0 <= h < |counts| {
        SpanSplits(counts, padding, capacity, h, x);
        if InSpan(counts, padding, capacity, h, x) {
          SpanUnique(counts, padding, capacity, g, h, x);
        }
      }
    }
  }

  /** Received and cleared slots lie inside the buffer. */
  lemma {:induction false} SpanInBuffer(counts: seq<int>, padding: nat, capacity: int, g: int, x: int)
    requires padding > 0 && Fits(counts, padding, capacity)
    requires InReal(counts, padding, g, x) || InZero(counts, padding, capacity, g, x)
    ensures 0 <= x < capacity
  {
    SpanSplits(counts, padding, capacity, g, x);
    GroupStartMonotone(counts, padding, 0, g);
    if g + 1 < |counts| {
      GroupStartMonotone(counts, padding, g + 1, |counts|);
    }
  }
}
