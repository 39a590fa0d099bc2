/**
 Attribution of profiled kernel launches to operator calls. One iteration of the
 model runs ten forward and five backward passes in a fixed order; every kernel
 appears in the profile as a stream of launches, some operators launching it
 once and some twice. Index tables say which launches belong to which call.
 Durations are real numbers.
 */
module KernelAttribution {
  import opened Sums
  import opened Wrappers

  // Operators in program order

  datatype Phase = InitialForward | RecomputeBackward

  datatype Stage =
    | Planning | DispatchForward | PrefetchWeight | CombineForward
    | DispatchBackward | CombineBackward | ReduceGrad

  datatype Operator = Operator(sequence: nat, phase: Phase, layer: nat, stage: Stage, occurrence: nat)

  const LAYERS := 5
  const STAGES: seq<Stage> :=
    [Planning, DispatchForward, PrefetchWeight, CombineForward, DispatchBackward, CombineBackward, ReduceGrad]
  const OPERATORS := 55

  /** A stage's place in a pass: forward stages have places 0 to 3, backward stages 4 to 6. */
  function Place(s: Stage): (p: nat)
    ensures p < 7 && STAGES[p] == s
  {
    match s
    case Planning => 0
    case DispatchForward => 1
    case PrefetchWeight => 2
    case CombineForward => 3
    case DispatchBackward => 4
    case CombineBackward => 5
    case ReduceGrad => 6
  }

  /** Five forward passes come first, then five passes that recompute forward and go backward. */
  function PlaceAt(i: nat): (p: nat)
    ensures p < 7
  {
    if i < 20 then i % 4 else (i - 20) % 7
  }

  /** Passes before position `i`. */
  function PassAt(i: nat): nat
  {
    if i < 20 then i / 4 else 5 + (i - 20) / 7
  }

  /** The operator at a position; layers are recomputed last first, and backward calls count from the sixth pass. */
  function OperatorAt(i: nat): Operator
    requires i < OPERATORS
  {
    var pass, place := PassAt(i), PlaceAt(i);
    Operator(i, if pass < 5 then InitialForward else RecomputeBackward, if pass < 5 then pass else 9 - pass,
             STAGES[place], if place < 4 then pass else pass - 5)
  }

  ghost predicate InOrder(ops: seq<Operator>)
  {
    |ops| <= OPERATORS && forall i :: 0 <= i < |ops| ==> ops[i] == OperatorAt(i)
  }

  /** Positions below `n` with place `p`. */
  function PlaceCount(p: nat, n: nat): nat
  {
    if n == 0 then 0 else PlaceCount(p, n - 1) + (if PlaceAt(n - 1) == p then 1 else 0)
  }

  /** The same, counted by passes. */
  function PassCount(p: nat, n: nat): int
  {
    PassAt(n) + (if PlaceAt(n) > p then 1 else 0) - (if p < 4 then 0 else if n < 20 then PassAt(n) else 5)
  }

  lemma {:induction false} NextPlace(i: nat)
    ensures var turn := PlaceAt(i) == (if i < 20 then 3 else 6);
      PlaceAt(i + 1) == (if turn then 0 else PlaceAt(i) + 1) && PassAt(i + 1) == (if turn then PassAt(i) + 1 else PassAt(i))
  {
    if i < 19 {
      assert i == 4 * (i / 4) + i % 4;
    } else if i >= 20 {
      var j := i - 20;
      assert j == 7 * (j / 7) + j % 7;
    }
  }

  lemma {:induction false} PassStep(p: nat, i: nat)
    requires p < 7
    ensures PassCount(p, i + 1) == PassCount(p, i) + (if PlaceAt(i) == p then 1 else 0)
  {
    NextPlace(i);
    if i == 19 {
      assert PlaceAt(19) == 3 && PassAt(19) == 4;
    }
  }

  lemma {:induction false} PlaceCountIs(p: nat, n: nat)
    requires p < 7
    ensures PlaceCount(p, n) == PassCount(p, n)
  {
    if n > 0 {
      PlaceCountIs(p, n - 1);
      PassStep(p, n - 1);
    }
  }

  /** An operator's occurrence is the number of earlier operators of its stage. */
  lemma {:induction false} OccurrenceIs(i: nat)
    requires i < OPERATORS
    ensures OperatorAt(i).occurrence == PlaceCount(PlaceAt(i), i)
  {
    PlaceCountIs(PlaceAt(i), i);
  }

  /** `counts` holds, by place, how often each stage has been appended. */
  ghost predicate Counted(n: nat, counts: seq<nat>)
  {
    |counts| == 7 && forall p :: 0 <= p < 7 ==> counts[p] == PlaceCount(p, n)
  }

  method Append(ops: seq<Operator>, counts: seq<nat>, phase: Phase, layer: nat, stage: Stage)
    returns (ops': seq<Operator>, counts': seq<nat>)
    requires InOrder(ops) && Counted(|ops|, counts) && |ops| < OPERATORS
    requires OperatorAt(|ops|).phase == phase && OperatorAt(|ops|).layer == layer && PlaceAt(|ops|) == Place(stage)
    ensures |ops'| == |ops| + 1 && InOrder(ops') && Counted(|ops'|, counts')
  {
    OccurrenceIs(|ops|);
    var p := Place(stage);
    ops' := ops + [Operator(|ops|, phase, layer, stage, counts[p])];
    counts' := counts[p := counts[p] + 1];
  }

  /** Calls of each stage in one iteration. */
  const LOGICAL_COUNTS: seq<nat> := [10, 10, 10, 10, 5, 5, 5]

  /**
   The loops over layers and stages produce the operators in program order, and
   every stage as often as an iteration should call it; the final check of the
   counts never fails.
   */
  method ModelOperatorOrder() returns (r: Option<seq<Operator>>)
    ensures r.Some? && |r.value| == OPERATORS && InOrder(r.value)
  {
    var ops: seq<Operator>, counts: seq<nat> := [], [0, 0, 0, 0, 0, 0, 0];
    for layer := 0 to LAYERS
      invariant |ops| == 4 * layer && InOrder(ops) && Counted(|ops|, counts)
    {
      for k := 0 to 4
        invariant |ops| == 4 * layer + k && InOrder(ops) && Counted(|ops|, counts)
      {
        ops, counts := Append(ops, counts, InitialForward, layer, STAGES[k]);
      }
    }
    for back := 0 to LAYERS
      invariant |ops| == 20 + 7 * back && InOrder(ops) && Counted(|ops|, counts)
    {
      for k := 0 to 7
        invariant |ops| == 20 + 7 * back + k && InOrder(ops) && Counted(|ops|, counts)
      {
        ops, counts := Append(ops, counts, RecomputeBackward, LAYERS - 1 - back, STAGES[k]);
      }
    }
    forall p | 0 <= p < 7
      ensures PlaceCount(p, OPERATORS) == LOGICAL_COUNTS[p]
    {
      PlaceCountIs(p, OPERATORS);
    }
    r := if counts != LOGICAL_COUNTS then None else Some(ops);
  }

  // Streams of launches

  /** A small multiple; operators launch a kernel at most twice. */
  function Times(n: nat, x: int): int
  {
    if n == 0 then 0 else if n == 1 then x else 2 * x
  }

  /**
   A kernel stream: the places of the forward and the backward stage that use it
   and how often a call of each launches the kernel, zero for a pass that does not.
   */
  datatype Stream = Stream(forward: nat, forwardLaunches: nat, backward: nat, backwardLaunches: nat)
  {
    predicate Valid()
    {
      forward < 4 <= backward < 7 && forwardLaunches <= 2 && backwardLaunches <= 2
    }

    /** Launches of one iteration. */
    function Size(): nat
    {
      10 * forwardLaunches + 5 * backwardLaunches
    }

    function Launches(place: nat): nat
    {
      if place == forward then forwardLaunches else if place == backward then backwardLaunches else 0
    }

    /** First launch of call `k` of the forward stage. */
    function FirstForward(k: nat): int
    {
      if k < 5 then Times(forwardLaunches, k)
      else Times(forwardLaunches, k) + Times(backwardLaunches, k - 5)
    }

    /** First launch of call `k` of the backward stage. */
    function FirstBackward(k: nat): int
    {
      Times(forwardLaunches, k + 6) + Times(backwardLaunches, k)
    }

    /** First launch of the operator at position `i`. */
    function First(i: nat): int
      requires i < OPERATORS
    {
      if PlaceAt(i) == forward then FirstForward(OperatorAt(i).occurrence) else FirstBackward(OperatorAt(i).occurrence)
    }

    /** Launches of all operators before position `i`. */
    function Before(i: nat): nat
    {
      if i == 0 then 0 else Before(i - 1) + Launches(PlaceAt(i - 1))
    }
  }

  lemma {:induction false} BeforeIs(st: Stream, i: nat)
    requires st.Valid()
    ensures st.Before(i) ==
      Times(st.forwardLaunches, PlaceCount(st.forward, i)) + Times(st.backwardLaunches, PlaceCount(st.backward, i))
  {
    if i > 0 {
      BeforeIs(st, i - 1);
    }
  }

  /** Each call of a stream's stages starts with the launch behind those of all calls before it in program order. */
  lemma {:induction false} CallsInProgramOrder(st: Stream, i: nat)
    requires st.Valid() && i < OPERATORS && (PlaceAt(i) == st.forward || PlaceAt(i) == st.backward)
    ensures st.First(i) == st.Before(i)
  {
    BeforeIs(st, i);
    OccurrenceIs(i);
    PlaceCountIs(st.forward, i);
    PlaceCountIs(st.backward, i);
  }

  /** All launches of an iteration belong to some operator. */
  lemma {:induction false} AllLaunches(st: Stream)
    requires st.Valid()
    ensures st.Before(OPERATORS) == st.Size()
  {
    BeforeIs(st, OPERATORS);
    PlaceCountIs(st.forward, OPERATORS);
    PlaceCountIs(st.backward, OPERATORS);
  }

  // Durations

  datatype Row = Row(name: string, duration: real)

  function RealSum(s: seq<real>): real
  {
    if |s| == 0 then 0.0 else RealSum(s[..|s| - 1]) + s[|s| - 1]
  }

  lemma {:induction false} RealSumAppend(a: seq<real>, b: seq<real>)
    ensures RealSum(a + b) == RealSum(a) + RealSum(b)
  {
    if |b| == 0 {
      assert a + b == a;
    } else {
      RealSumAppend(a, b[..|b| - 1]);
      assert (a + b)[..|a + b| - 1] == a + b[..|b| - 1];
    }
  }

  /** Time of `n` consecutive launches. */
  function RunTime(chunk: seq<real>, first: int, n: nat): real
  {
    if 0 <= first && first + n <= |chunk| then RealSum(chunk[first..first + n]) else 0.0
  }

  lemma {:induction false} RunTimeOf(chunk: seq<real>, first: nat)
    ensures first < |chunk| ==> RunTime(chunk, first, 1) == chunk[first]
    ensures first + 1 < |chunk| ==> RunTime(chunk, first, 2) == chunk[first] + chunk[first + 1]
  {
    if first < |chunk| {
      assert chunk[first..first + 1] == [chunk[first]];
      assert RealSum([chunk[first]]) == chunk[first];
    }
    if first + 1 < |chunk| {
      assert chunk[first..first + 2] == [chunk[first]] + [chunk[first + 1]];
      RealSumAppend([chunk[first]], [chunk[first + 1]]);
    }
  }

  /** Time that the first `n` operators spend in a stream, each with the launches that are its own. */
  function StreamTime(st: Stream, chunk: seq<real>, n: nat): real
  {
    if n == 0 then 0.0
    else StreamTime(st, chunk, n - 1) + RunTime(chunk, st.Before(n - 1), st.Launches(PlaceAt(n - 1)))
  }

  lemma {:induction false} BeforeGrows(st: Stream, i: nat, j: nat)
    requires i <= j
    ensures st.Before(i) <= st.Before(j)
  {
    if i < j {
      BeforeGrows(st, i, j - 1);
    }
  }

  lemma {:induction false} RunExtends(chunk: seq<real>, a: nat, n: nat)
    requires a + n <= |chunk|
    ensures RealSum(chunk[..a + n]) == RealSum(chunk[..a]) + RunTime(chunk, a, n)
  {
    assert chunk[..a + n] == chunk[..a] + chunk[a..a + n];
    RealSumAppend(chunk[..a], chunk[a..a + n]);
  }

  lemma {:induction false} StreamTimeIs(st: Stream, chunk: seq<real>, n: nat)
    requires st.Valid() && n <= OPERATORS && |chunk| == st.Size()
    ensures st.Before(n) <= |chunk| && StreamTime(st, chunk, n) == RealSum(chunk[..st.Before(n)])
  {
    AllLaunches(st);
    BeforeGrows(st, n, OPERATORS);
    if n > 0 {
      StreamTimeIs(st, chunk, n - 1);
      RunExtends(chunk, st.Before(n - 1), st.Launches(PlaceAt(n - 1)));
    }
  }

  /** Time is conserved: what the operators of one iteration are charged is what its kernels took. */
  lemma {:induction false} TimeConserved(st: Stream, chunk: seq<real>)
    requires st.Valid() && |chunk| == st.Size()
    ensures StreamTime(st, chunk, OPERATORS) == RealSum(chunk)
  {
    StreamTimeIs(st, chunk, OPERATORS);
    AllLaunches(st);
    assert chunk[..|chunk|] == chunk;
  }

  // Index tables

  const FORWARD_CALL_INDICES: seq<nat> := [0, 1, 2, 3, 4, 5, 7, 9, 11, 13]
  const BACKWARD_CALL_INDICES: seq<nat> := [6, 8, 10, 12, 14]
  const FORWARD_DISPATCH_PAIRS: seq<(nat, nat)> :=
    [(0, 1), (2, 3), (4, 5), (6, 7), (8, 9), (10, 11), (13, 14), (16, 17), (19, 20), (22, 23)]
  const BACKWARD_DISPATCH_OLD: seq<nat> := [12, 15, 18, 21, 24]
  const FORWARD_COMBINE_V2: seq<nat> := [0, 1, 2, 3, 4, 5, 8, 11, 14, 17]
  const BACKWARD_COMBINE_V2: seq<(nat, nat)> := [(6, 7), (9, 10), (12, 13), (15, 16), (18, 19)]

  const PLANNING := Stream(0, 1, 4, 0)
  const PREFETCH := Stream(2, 1, 4, 0)
  const REDUCE := Stream(0, 0, 6, 1)
  const DISPATCH_15 := Stream(1, 1, 4, 1)
  const DISPATCH_25 := Stream(1, 2, 4, 1)
  const COMBINE_15 := Stream(3, 1, 5, 1)
  const COMBINE_20 := Stream(3, 1, 5, 2)

  /** The index tables name the launches of each forward call. */
  lemma {:induction false} ForwardTables(k: nat)
    requires k < 10
    ensures FORWARD_CALL_INDICES[k] == DISPATCH_15.FirstForward(k) == COMBINE_15.FirstForward(k)
    ensures FORWARD_DISPATCH_PAIRS[k] == (DISPATCH_25.FirstForward(k), DISPATCH_25.FirstForward(k) + 1)
    ensures FORWARD_COMBINE_V2[k] == COMBINE_20.FirstForward(k)
    ensures PLANNING.FirstForward(k) == PREFETCH.FirstForward(k) == k
  {
  }

  /** The index tables name the launches of each backward call. */
  lemma {:induction false} BackwardTables(k: nat)
    requires k < 5
    ensures BACKWARD_CALL_INDICES[k] == DISPATCH_15.FirstBackward(k) == COMBINE_15.FirstBackward(k)
    ensures BACKWARD_DISPATCH_OLD[k] == DISPATCH_25.FirstBackward(k)
    ensures BACKWARD_COMBINE_V2[k] == (COMBINE_20.FirstBackward(k), COMBINE_20.FirstBackward(k) + 1)
    ensures REDUCE.FirstBackward(k) == k
  {
  }

  function Select(values: seq<real>, indices: seq<nat>): (r: seq<real>)
    requires forall k :: 0 <= k < |indices| ==> indices[k] < |values|
    ensures |r| == |indices| && forall k :: 0 <= k < |r| ==> r[k] == values[indices[k]]
  {
    seq(|indices|, k requires 0 <= k < |indices| => values[indices[k]])
  }

  function PairSums(values: seq<real>, pairs: seq<(nat, nat)>): (r: seq<real>)
    requires forall k :: 0 <= k < |pairs| ==> pairs[k].0 < |values| && pairs[k].1 < |values|
    ensures |r| == |pairs| && forall k :: 0 <= k < |r| ==> r[k] == values[pairs[k].0] + values[pairs[k].1]
  {
    seq(|pairs|, k requires 0 <= k < |pairs| => values[pairs[k].0] + values[pairs[k].1])
  }

  /** Durations of the calls of a stream's forward and backward stage, one row per iteration. */
  datatype Split = Split(stream: Stream, forward: seq<real>, backward: seq<real>)

  /** Every call is charged with exactly its own launches. */
  ghost predicate Charged(chunk: seq<real>, s: Split)
  {
    && |chunk| == s.stream.Size()
    && (s.stream.forwardLaunches > 0 ==> |s.forward| == 10 && forall k :: 0 <= k < 10 ==>
      s.forward[k] == RunTime(chunk, s.stream.FirstForward(k), s.stream.forwardLaunches))
    && (s.stream.backwardLaunches > 0 ==> |s.backward| == 5 && forall k :: 0 <= k < 5 ==>
      s.backward[k] == RunTime(chunk, s.stream.FirstBackward(k), s.stream.backwardLaunches))
  }

  /** The launch layouts that profiles come in. */
  predicate Known(st: Stream)
  {
    st in {PLANNING, PREFETCH, REDUCE, DISPATCH_15, DISPATCH_25, COMBINE_15, COMBINE_20}
  }

  /** The index tables applied to the launches of one iteration. */
  function SplitChunk(st: Stream, chunk: seq<real>): Split
    requires Known(st) && |chunk| == st.Size()
  {
    if st == PLANNING || st == PREFETCH then Split(st, chunk, [])
    else if st == REDUCE then Split(st, [], chunk)
    else if st == DISPATCH_25 then
      Split(st, PairSums(chunk, FORWARD_DISPATCH_PAIRS), Select(chunk, BACKWARD_DISPATCH_OLD))
    else if st == COMBINE_20 then
      Split(st, Select(chunk, FORWARD_COMBINE_V2), PairSums(chunk, BACKWARD_COMBINE_V2))
    else Split(st, Select(chunk, FORWARD_CALL_INDICES), Select(chunk, BACKWARD_CALL_INDICES))
  }

  lemma {:induction false} SplitForward(st: Stream, chunk: seq<real>, k: nat)
    requires Known(st) && |chunk| == st.Size() && k < 10 && st.forwardLaunches > 0
    ensures |SplitChunk(st, chunk).forward| == 10
    ensures SplitChunk(st, chunk).forward[k] == RunTime(chunk, st.FirstForward(k), st.forwardLaunches)
  {
    ForwardTables(k);
    if st == PLANNING || st == PREFETCH {
      RunTimeOf(chunk, k);
    } else if st == DISPATCH_25 {
      RunTimeOf(chunk, FORWARD_DISPATCH_PAIRS[k].0);
    } else if st == COMBINE_20 {
      RunTimeOf(chunk, FORWARD_COMBINE_V2[k]);
    } else {
      RunTimeOf(chunk, FORWARD_CALL_INDICES[k]);
    }
  }

  lemma {:induction false} SplitBackward(st: Stream, chunk: seq<real>, k: nat)
    requires Known(st) && |chunk| == st.Size() && k < 5 && st.backwardLaunches > 0
    ensures |SplitChunk(st, chunk).backward| == 5
    ensures SplitChunk(st, chunk).backward[k] == RunTime(chunk, st.FirstBackward(k), st.backwardLaunches)
  {
    if st == COMBINE_20 {
      CombinePairs(chunk, k);
    } else {
      SingleBackward(st, chunk, k);
    }
  }

  lemma {:induction false} SingleBackward(st: Stream, chunk: seq<real>, k: nat)
    requires Known(st) && |chunk| == st.Size() && k < 5 && st.backwardLaunches == 1
    ensures |SplitChunk(st, chunk).backward| == 5
    ensures SplitChunk(st, chunk).backward[k] == RunTime(chunk, st.FirstBackward(k), 1)
  {
    BackwardTables(k);
    RunTimeOf(chunk, st.FirstBackward(k));
  }

  lemma {:induction false} CombinePairs(chunk: seq<real>, k: nat)
    requires |chunk| == COMBINE_20.Size() && k < 5
    ensures PairSums(chunk, BACKWARD_COMBINE_V2)[k] == RunTime(chunk, COMBINE_20.FirstBackward(k), 2)
  {
    var first := 6 + 3 * k;
    assert COMBINE_20.FirstBackward(k) == first;
    assert BACKWARD_COMBINE_V2[k] == (first, first + 1);
    RunTimeOf(chunk, first);
  }

  lemma {:induction false} SplitCharged(st: Stream, chunk: seq<real>)
    requires Known(st) && |chunk| == st.Size()
    ensures Charged(chunk, SplitChunk(st, chunk))
  {
    forall k: nat | k < 10 && st.forwardLaunches > 0
      ensures |SplitChunk(st, chunk).forward| == 10
      ensures SplitChunk(st, chunk).forward[k] == RunTime(chunk, st.FirstForward(k), st.forwardLaunches)
    {
      SplitForward(st, chunk, k);
    }
    forall k: nat | k < 5 && st.backwardLaunches > 0
      ensures |SplitChunk(st, chunk).backward| == 5
      ensures SplitChunk(st, chunk).backward[k] == RunTime(chunk, st.FirstBackward(k), st.backwardLaunches)
    {
      SplitBackward(st, chunk, k);
    }
    if st.forwardLaunches > 0 {
      SplitForward(st, chunk, 0);
    }
    if st.backwardLaunches > 0 {
      SplitBackward(st, chunk, 0);
    }
  }

  // Parsing a profile

  /** Durations of the rows with one of the given names, in profile order. */
  function Durations(rows: seq<Row>, names: set<string>): seq<real>
  {
    if |rows| == 0 then [] else
      var last := rows[|rows| - 1];
      Durations(rows[..|rows| - 1], names) + (if last.name in names then [last.duration] else [])
  }

  /** How many of the first `n` rows have one of the given names. */
  function Matching(rows: seq<Row>, n: nat, names: set<string>): nat
    requires n <= |rows|
  {
    if n == 0 then 0 else Matching(rows, n - 1, names) + (if rows[n - 1].name in names then 1 else 0)
  }

  /** Durations keep the order of the profile: a matching row comes behind as many as match before it. */
  lemma {:induction false} DurationsAre(rows: seq<Row>, n: nat, names: set<string>)
    requires n <= |rows|
    ensures |Durations(rows[..n], names)| == Matching(rows, n, names)
    ensures forall k :: 0 <= k < n && rows[k].name in names ==>
      && Matching(rows, k, names) < Matching(rows, n, names)
      && Durations(rows[..n], names)[Matching(rows, k, names)] == rows[k].duration
  {
    if n > 0 {
      DurationsAre(rows, n - 1, names);
      assert rows[..n][..n - 1] == rows[..n - 1];
    }
  }

  /** Every launch is some row of the profile. */
  lemma {:induction false} MatchExists(rows: seq<Row>, n: nat, names: set<string>, g: nat) returns (k: nat)
    requires n <= |rows| && g < Matching(rows, n, names)
    ensures k < n && rows[k].name in names && Matching(rows, k, names) == g
  {
    if rows[n - 1].name in names && Matching(rows, n - 1, names) == g {
      k := n - 1;
    } else {
      k := MatchExists(rows, n - 1, names, g);
    }
  }

  /** `picked` are the rows of launches `first`, `first + 1` and so on of a kernel with one of these names. */
  ghost predicate Picks(rows: seq<Row>, names: set<string>, first: nat, picked: seq<nat>)
  {
    forall m :: 0 <= m < |picked| ==>
      && picked[m] < |rows| && rows[picked[m]].name in names
      && Matching(rows, picked[m], names) == first + m
  }

  /** Their durations, in profile order. */
  function TimesOf(rows: seq<Row>, picked: seq<nat>): (times: seq<real>)
    requires forall m :: 0 <= m < |picked| ==> picked[m] < |rows|
    ensures |times| == |picked| && forall m :: 0 <= m < |picked| ==> times[m] == rows[picked[m]].duration
  {
    seq(|picked|, m requires 0 <= m < |picked| => rows[picked[m]].duration)
  }

  lemma {:induction false} PickRows(rows: seq<Row>, names: set<string>, first: nat, n: nat) returns (picked: seq<nat>)
    requires first + n <= |Durations(rows, names)|
    ensures |picked| == n && Picks(rows, names, first, picked)
    ensures TimesOf(rows, picked) == Durations(rows, names)[first..first + n]
  {
    assert rows[..|rows|] == rows;
    DurationsAre(rows, |rows|, names);
    picked := [];
    while |picked| < n
      invariant |picked| <= n && Picks(rows, names, first, picked)
      invariant TimesOf(rows, picked) == Durations(rows, names)[first..first + |picked|]
    {
      var k := MatchExists(rows, |rows|, names, first + |picked|);
      assert Durations(rows, names)[first + |picked|] == rows[k].duration;
      picked := picked + [k];
    }
  }

  const PLANNING_KERNEL := "tilexr_ep_plan_kernel"
  const PLANNING_KERNELS := {PLANNING_KERNEL, "tilexr_moonep_planner_kernel"}
  const DISPATCH_KERNEL := "tilexr_moonep_dispatch_urma_kernel"
  const PREFETCH_KERNEL := "tilexr_moonep_prefetch_weight_kernel"
  const COMBINE_V1_KERNEL := "tilexr_moonep_combine_kernel"
  const COMBINE_V2_KERNEL := "tilexr_moonep_combine_v2_kernel"
  const REDUCE_KERNEL := "tilexr_moonep_reduce_grad_kernel"

  /** The launches of one kernel together with their layout. */
  datatype Source = Source(kernel: string, stream: Stream, durations: seq<real>)
  {
    predicate Fits(iterations: nat)
    {
      Known(stream) && |durations| == iterations * stream.Size()
    }
  }

  /** The launches of iteration `t`. */
  function ChunkAt(s: Source, iterations: nat, t: nat): (chunk: seq<real>)
    requires s.Fits(iterations) && t < iterations
    ensures |chunk| == s.stream.Size()
  {
    BlockWithin(t, s.stream.Size(), iterations);
    s.durations[t * s.stream.Size()..t * s.stream.Size() + s.stream.Size()]
  }

  datatype Profile = Profile(planning: Source, dispatch: Source, prefetch: Source, combine: Source, reduce: Source)
  {
    predicate Fits(iterations: nat)
    {
      && planning.Fits(iterations) && dispatch.Fits(iterations) && prefetch.Fits(iterations)
      && combine.Fits(iterations) && reduce.Fits(iterations)
      && planning.stream == PLANNING && prefetch.stream == PREFETCH && reduce.stream == REDUCE
      && dispatch.stream in {DISPATCH_15, DISPATCH_25} && combine.stream in {COMBINE_15, COMBINE_20}
    }

    /** The kernel that the stage at `place` launches. */
    function SourceOf(place: nat): Source
    {
      if place == 0 then planning else if place == 1 || place == 4 then dispatch else if place == 2 then prefetch
      else if place == 3 || place == 5 then combine else reduce
    }
  }

  /** Layouts are told apart by the number of launches. */
  method DispatchLayout(durations: seq<real>, iterations: nat) returns (r: Option<Source>)
    ensures r.Some? <==> |durations| == iterations * 15 || |durations| == iterations * 25
    ensures r.Some? ==> r.value.durations == durations && r.value.Fits(iterations)
    ensures r.Some? ==> r.value.stream in {DISPATCH_15, DISPATCH_25} && r.value.kernel == DISPATCH_KERNEL
  {
    if |durations| == 15 * iterations {
      return Some(Source(DISPATCH_KERNEL, DISPATCH_15, durations));
    }
    if |durations| == 25 * iterations {
      return Some(Source(DISPATCH_KERNEL, DISPATCH_25, durations));
    }
    return None;
  }

  method CombineLayout(v1: seq<real>, v2: seq<real>, iterations: nat) returns (r: Option<Source>)
    ensures r.Some? <==>
      if |v2| > 0 then |v1| == 0 && (|v2| == iterations * 15 || |v2| == iterations * 20)
      else |v1| > 0 && |v1| == iterations * 15
    ensures r.Some? ==> r.value.durations == v1 + v2 && r.value.Fits(iterations)
    ensures r.Some? ==> r.value.stream in {COMBINE_15, COMBINE_20}
    ensures r.Some? ==> r.value.kernel == if |v2| > 0 then COMBINE_V2_KERNEL else COMBINE_V1_KERNEL
  {
    if |v2| > 0 && |v1| == 0 {
      assert v1 + v2 == v2;
      if |v2| == 15 * iterations {
        return Some(Source(COMBINE_V2_KERNEL, COMBINE_15, v2));
      }
      if |v2| == 20 * iterations {
        return Some(Source(COMBINE_V2_KERNEL, COMBINE_20, v2));
      }
      return None;
    }
    if |v1| > 0 && |v2| == 0 {
      assert v1 + v2 == v1;
      if |v1| == 15 * iterations {
        return Some(Source(COMBINE_V1_KERNEL, COMBINE_15, v1));
      }
    }
    return None;
  }

  /** The launch counts that are accepted. */
  predicate Accepted(rows: seq<Row>, iterations: nat)
  {
    var dispatch := |Durations(rows, {DISPATCH_KERNEL})|;
    var v1, v2 := |Durations(rows, {COMBINE_V1_KERNEL})|, |Durations(rows, {COMBINE_V2_KERNEL})|;
    && |Durations(rows, PLANNING_KERNELS)| == iterations * 10
    && |Durations(rows, {PREFETCH_KERNEL})| == iterations * 10
    && |Durations(rows, {REDUCE_KERNEL})| == iterations * 5
    && (dispatch == iterations * 15 || dispatch == iterations * 25)
    && (if v2 > 0 then v1 == 0 && (v2 == iterations * 15 || v2 == iterations * 20) else v1 > 0 && v1 == iterations * 15)
  }

  /** The profile holds exactly the rows of its kernels. */
  ghost predicate ProfileOf(rows: seq<Row>, p: Profile)
  {
    && p.planning.durations == Durations(rows, PLANNING_KERNELS)
    && p.dispatch.durations == Durations(rows, {DISPATCH_KERNEL})
    && p.prefetch.durations == Durations(rows, {PREFETCH_KERNEL})
    && p.combine.durations == Durations(rows, {COMBINE_V1_KERNEL}) + Durations(rows, {COMBINE_V2_KERNEL})
    && p.reduce.durations == Durations(rows, {REDUCE_KERNEL})
    && p.planning.kernel == PLANNING_KERNEL && p.dispatch.kernel == DISPATCH_KERNEL
    && p.prefetch.kernel == PREFETCH_KERNEL && p.reduce.kernel == REDUCE_KERNEL
    && p.combine.kernel ==
      if |Durations(rows, {COMBINE_V2_KERNEL})| > 0 then COMBINE_V2_KERNEL else COMBINE_V1_KERNEL
  }

  /** The profile's rows sorted into kernels; `None` when a count does not fit any layout. */
  method Classify(rows: seq<Row>, iterations: nat) returns (r: Option<Profile>)
    ensures r.Some? <==> Accepted(rows, iterations)
    ensures r.Some? ==> r.value.Fits(iterations) && ProfileOf(rows, r.value)
  {
    var planning := Source(PLANNING_KERNEL, PLANNING, Durations(rows, PLANNING_KERNELS));
    var prefetch := Source(PREFETCH_KERNEL, PREFETCH, Durations(rows, {PREFETCH_KERNEL}));
    var reduce := Source(REDUCE_KERNEL, REDUCE, Durations(rows, {REDUCE_KERNEL}));
    if !planning.Fits(iterations) || !prefetch.Fits(iterations) || !reduce.Fits(iterations) {
      return None;
    }
    var dispatch := DispatchLayout(Durations(rows, {DISPATCH_KERNEL}), iterations);
    if dispatch.None? {
      return None;
    }
    var combine := CombineLayout(Durations(rows, {COMBINE_V1_KERNEL}), Durations(rows, {COMBINE_V2_KERNEL}), iterations);
    if combine.None? {
      return None;
    }
    return Some(Profile(planning, dispatch.value, prefetch, combine.value, reduce));
  }

  datatype Attributed = Attributed(op: Operator, kernel: string, launches: nat, durations: seq<real>)

  /** The operator at position `i` is charged, in iteration `t`, with exactly its own launches. */
  ghost predicate ChargedRight(p: Profile, iterations: nat, i: nat, t: nat, duration: real)
    requires p.Fits(iterations) && i < OPERATORS && t < iterations
  {
    var s := p.SourceOf(PlaceAt(i));
    duration == RunTime(ChunkAt(s, iterations, t), s.stream.Before(i), s.stream.Launches(PlaceAt(i)))
  }

  /** The report names the kernel of the operator at position `i` and how often one call launches it. */
  ghost predicate LaunchesRight(p: Profile, i: nat, a: Attributed)
  {
    var s := p.SourceOf(PlaceAt(i));
    a.kernel == s.kernel && a.launches == s.stream.Launches(PlaceAt(i))
  }

  /** The entry of the split tables that an operator gets. */
  method ChargeOperator(p: Profile, iterations: nat, i: nat, t: nat) returns (duration: real)
    requires p.Fits(iterations) && i < OPERATORS && t < iterations
    ensures ChargedRight(p, iterations, i, t, duration)
  {
    var place, occurrence := PlaceAt(i), OperatorAt(i).occurrence;
    var s := p.SourceOf(place);
    var chunk := ChunkAt(s, iterations, t);
    CallsInProgramOrder(s.stream, i);
    SplitCharged(s.stream, chunk);
    var split := SplitChunk(s.stream, chunk);
    duration := if place < 4 then split.forward[occurrence] else split.backward[occurrence];
  }

  /** The row of the operator at position `i`: its kernel, its launches per call and its time in every iteration. */
  ghost predicate RowRight(p: Profile, iterations: nat, i: nat, a: Attributed)
    requires p.Fits(iterations) && i < OPERATORS
  {
    && a.op == OperatorAt(i) && LaunchesRight(p, i, a) && |a.durations| == iterations
    && forall t :: 0 <= t < iterations ==> ChargedRight(p, iterations, i, t, a.durations[t])
  }

  method ReportOperator(p: Profile, iterations: nat, i: nat, op: Operator) returns (a: Attributed)
    requires p.Fits(iterations) && i < OPERATORS && op == OperatorAt(i)
    ensures RowRight(p, iterations, i, a)
  {
    var durations: seq<real> := [];
    for t := 0 to iterations
      invariant |durations| == t && forall u :: 0 <= u < t ==> ChargedRight(p, iterations, i, u, durations[u])
    {
      var duration := ChargeOperator(p, iterations, i, t);
      durations := durations + [duration];
    }
    var s := p.SourceOf(PlaceAt(i));
    a := Attributed(op, s.kernel, s.stream.Launches(PlaceAt(i)), durations);
  }

  /** A report that gives every operator, in program order, its own launches. */
  ghost predicate ReportRight(p: Profile, iterations: nat, report: seq<Attributed>)
    requires p.Fits(iterations)
  {
    |report| == OPERATORS && forall i :: 0 <= i < OPERATORS ==> RowRight(p, iterations, i, report[i])
  }

  /**
   Parse a profile: each operator, in program order, with its kernel, its launches per
   call and its time in every iteration, each charged with the launches behind those of
   the calls before it.
   */
  method ParseKernelRows(rows: seq<Row>, iterations: int) returns (r: Option<(Profile, seq<Attributed>)>)
    ensures r.Some? <==> iterations > 0 && Accepted(rows, iterations)
    ensures r.Some? ==> r.value.0.Fits(iterations) && ProfileOf(rows, r.value.0)
    ensures r.Some? ==> ReportRight(r.value.0, iterations, r.value.1)
  {
    if iterations <= 0 {
      return None;
    }
    var profile := Classify(rows, iterations);
    if profile.None? {
      return None;
    }
    var report := ReportProfile(profile.value, iterations);
    return Some((profile.value, report));
  }

  method ReportProfile(p: Profile, iterations: nat) returns (report: seq<Attributed>)
    requires p.Fits(iterations)
    ensures ReportRight(p, iterations, report)
  {
    var order := ModelOperatorOrder();
    report := [];
    for i := 0 to OPERATORS
      invariant |report| == i && forall k :: 0 <= k < i ==> RowRight(p, iterations, k, report[k])
    {
      var row := ReportOperator(p, iterations, i, order.value[i]);
      report := report + [row];
    }
  }

  // From the report back to the rows

  /** The names under which the kernel of the stage at `place` appears in the profile. */
  function NamesAt(p: Profile, place: nat): set<string>
  {
    if place == 0 then PLANNING_KERNELS else {p.SourceOf(place).kernel}
  }

  /** Each stage's launches are the rows with its names. */
  lemma {:induction false} StageRows(rows: seq<Row>, iterations: nat, p: Profile, place: nat)
    requires Accepted(rows, iterations) && p.Fits(iterations) && ProfileOf(rows, p) && place < 7
    ensures p.SourceOf(place).durations == Durations(rows, NamesAt(p, place))
  {
    var v1, v2 := Durations(rows, {COMBINE_V1_KERNEL}), Durations(rows, {COMBINE_V2_KERNEL});
    assert v1 + [] == v1 && [] + v2 == v2;
  }

  /** The launches of one operator lie inside those of its iteration. */
  lemma {:induction false} LaunchesInside(st: Stream, i: nat)
    requires st.Valid() && i < OPERATORS
    ensures st.Before(i) + st.Launches(PlaceAt(i)) <= st.Size()
  {
    AllLaunches(st);
    BeforeGrows(st, i + 1, OPERATORS);
  }

  /** Where the launches of the operator at position `i` in iteration `t` start among all launches of its kernel. */
  function FirstLaunch(st: Stream, i: nat, t: nat): nat
  {
    t * st.Size() + st.Before(i)
  }

  /** What an operator is charged, as a run of its kernel's launches in the whole profile. */
  lemma {:induction false} ChargedRun(s: Source, iterations: nat, i: nat, t: nat)
    requires s.Fits(iterations) && i < OPERATORS && t < iterations
    ensures var first, n := FirstLaunch(s.stream, i, t), s.stream.Launches(PlaceAt(i));
      && first + n <= |s.durations|
      && RunTime(ChunkAt(s, iterations, t), s.stream.Before(i), n) == RealSum(s.durations[first..first + n])
  {
    LaunchesInside(s.stream, i);
    RunInside(s.durations, s.stream.Size(), iterations, t, s.stream.Before(i), s.stream.Launches(PlaceAt(i)));
  }

  lemma {:induction false} RunInside(all: seq<real>, size: nat, iterations: nat, t: nat, before: nat, n: nat)
    requires |all| == iterations * size && t < iterations && before + n <= size
    ensures 0 <= t * size <= t * size + before + n <= t * size + size <= |all|
    ensures RunTime(all[t * size..t * size + size], before, n) == RealSum(all[t * size + before..t * size + before + n])
  {
    BlockWithin(t, size, iterations);
    SliceOfSlice(all, t * size, size, before, n);
  }

  lemma {:induction false} SliceOfSlice(all: seq<real>, start: nat, size: nat, before: nat, n: nat)
    requires start + size <= |all| && before + n <= size
    ensures all[start..start + size][before..before + n] == all[start + before..start + before + n]
  {
    var inner, outer := all[start..start + size][before..before + n], all[start + before..start + before + n];
    forall m | 0 <= m < n
      ensures inner[m] == outer[m]
    {
      assert all[start..start + size][before + m] == all[start + (before + m)];
    }
  }

  /**
   The rows that the operator at position `i` is charged with in iteration `t`: among
   the rows of its kernel, those behind the launches of all earlier iterations and of
   all earlier operators of this one. The report gives the sum of their durations.
   */
  lemma {:induction false} ChargedRows(
    rows: seq<Row>, iterations: nat, p: Profile, report: seq<Attributed>, i: nat, t: nat) returns (picked: seq<nat>)
    requires Accepted(rows, iterations) && p.Fits(iterations) && ProfileOf(rows, p)
    requires ReportRight(p, iterations, report) && i < OPERATORS && t < iterations
    ensures |picked| == report[i].launches == p.SourceOf(PlaceAt(i)).stream.Launches(PlaceAt(i))
    ensures Picks(rows, NamesAt(p, PlaceAt(i)), FirstLaunch(p.SourceOf(PlaceAt(i)).stream, i, t), picked)
    ensures |report[i].durations| == iterations && report[i].durations[t] == RealSum(TimesOf(rows, picked))
  {
    var s := p.SourceOf(PlaceAt(i));
    StageRows(rows, iterations, p, PlaceAt(i));
    ChargedRun(s, iterations, i, t);
    picked := PickRows(rows, NamesAt(p, PlaceAt(i)), FirstLaunch(s.stream, i, t), s.stream.Launches(PlaceAt(i)));
    ReportCharges(p, iterations, report, i, t);
  }

  lemma {:induction false} ReportCharges(p: Profile, iterations: nat, report: seq<Attributed>, i: nat, t: nat)
    requires p.Fits(iterations) && ReportRight(p, iterations, report) && i < OPERATORS && t < iterations
    ensures LaunchesRight(p, i, report[i]) && |report[i].durations| == iterations
    ensures ChargedRight(p, iterations, i, t, report[i].durations[t])
  {
    assert RowRight(p, iterations, i, report[i]);
  }

  /** Time that a report charges, in iteration `t`, to the first `n` operators that use a stream. */
  function ReportTime(report: seq<Attributed>, st: Stream, t: nat, n: nat): real
    requires n <= |report|
  {
    if n == 0 then 0.0 else
      var times := report[n - 1].durations;
      var own := if st.Launches(PlaceAt(n - 1)) > 0 && t < |times| then times[t] else 0.0;
      ReportTime(report, st, t, n - 1) + own
  }

  /** Only the stages of a kernel launch it. */
  lemma {:induction false} SameSource(p: Profile, iterations: nat, place: nat, other: nat)
    requires p.Fits(iterations) && place < 7 && other < 7 && p.SourceOf(place).stream.Launches(other) > 0
    ensures p.SourceOf(other) == p.SourceOf(place)
  {
  }

  lemma {:induction false} ReportTimeIs(
    p: Profile, iterations: nat, report: seq<Attributed>, place: nat, t: nat, n: nat)
    requires p.Fits(iterations) && ReportRight(p, iterations, report) && place < 7 && t < iterations && n <= OPERATORS
    ensures var s := p.SourceOf(place);
      ReportTime(report, s.stream, t, n) == StreamTime(s.stream, ChunkAt(s, iterations, t), n)
  {
    if n > 0 {
      ReportTimeIs(p, iterations, report, place, t, n - 1);
      var s := p.SourceOf(place);
      if s.stream.Launches(PlaceAt(n - 1)) > 0 {
        SameSource(p, iterations, place, PlaceAt(n - 1));
        assert RowRight(p, iterations, n - 1, report[n - 1]);
      } else {
        assert RunTime(ChunkAt(s, iterations, t), s.stream.Before(n - 1), 0) == 0.0;
      }
    }
  }

  /** Per iteration and kernel, the times charged to the operators add up to the times of all launches. */
  lemma {:induction false} ReportConserved(
    p: Profile, iterations: nat, report: seq<Attributed>, place: nat, t: nat)
    requires p.Fits(iterations) && ReportRight(p, iterations, report) && place < 7 && t < iterations
    ensures var s := p.SourceOf(place);
      ReportTime(report, s.stream, t, OPERATORS) == RealSum(ChunkAt(s, iterations, t))
  {
    ReportTimeIs(p, iterations, report, place, t, OPERATORS);
    TimeConserved(p.SourceOf(place).stream, ChunkAt(p.SourceOf(place), iterations, t));
  }
}
