/**
 The barrier as a state machine: cores repeatedly set their outer flag and wait
 for the outer flags of all cores. Every read of a flag is a step of its own, so
 all interleavings of setting and polling are covered.
 */
module SyncBarrier {
  import opened Sums
  import opened SyncFlags

  /**
   `ranks` times `blocks` cores, numbered rank by rank, run the rounds given by
   `events` under one magic.
   */
  datatype Barrier = Barrier(ranks: nat, blocks: nat, magic: i32, events: seq<int>)
  {
    ghost predicate Valid()
    {
      && ranks > 0 && blocks > 0
      && (forall k :: 0 <= k < |events| ==> 0 <= events[k] < 0x8000_0000)
      && (forall j, k :: 0 <= j < k < |events| ==> events[j] < events[k])
    }

    function Cores(): nat
    {
      ranks * blocks
    }

    /** The flag value of round `k`. */
    function Value(k: nat): int
      requires Valid() && k < |events|
    {
      Merge(magic, events[k])
    }

    /** The flag that core `c` looks at as its `i`-th: ranks are visited starting with the core's own. */
    function Target(c: nat, i: nat): int
      requires ranks > 0 && blocks > 0
    {
      (c / blocks + i / blocks) % ranks * blocks + i % blocks
    }
  }

  /** A core has finished `round` rounds; it is about to set its flag, or it has and `seen` flags have passed. */
  datatype Core = Setting(round: nat) | Waiting(round: nat, seen: nat)

  function Sets(c: Core): nat
  {
    if c.Setting? then c.round else c.round + 1
  }

  datatype State = State(flags: seq<int>, cores: seq<Core>)

  /** Flags may hold anything of another magic, such as what an earlier launch left. */
  ghost predicate Init(b: Barrier, s: State)
  {
    && b.Valid() && |s.flags| == |s.cores| == b.Cores()
    && (forall c :: 0 <= c < b.Cores() ==> High(s.flags[c]) != b.magic && s.cores[c] == Setting(0))
  }

  ghost predicate SetFlag(b: Barrier, s: State, s': State, c: nat)
    requires b.Valid() && |s.flags| == |s.cores| == b.Cores()
  {
    && c < b.Cores() && s.cores[c].Setting? && s.cores[c].round < |b.events|
    && s' == State(s.flags[c := b.Value(s.cores[c].round)], s.cores[c := Waiting(s.cores[c].round, 0)])
  }

  /** The flag that core `c` is looking at passes. */
  ghost predicate Satisfied(b: Barrier, s: State, c: nat)
    requires b.Valid() && |s.flags| == |s.cores| == b.Cores()
  {
    && c < b.Cores() && s.cores[c].Waiting? && s.cores[c].round < |b.events| && s.cores[c].seen < b.Cores()
    && var t := b.Target(c, s.cores[c].seen);
      0 <= t < b.Cores() && Passes(s.flags[t], b.Value(s.cores[c].round), true)
  }

  ghost predicate See(b: Barrier, s: State, s': State, c: nat)
    requires b.Valid() && |s.flags| == |s.cores| == b.Cores()
  {
    && Satisfied(b, s, c)
    && s' == s.(cores := s.cores[c := s.cores[c].(seen := s.cores[c].seen + 1)])
  }

  /** All flags have passed: the core leaves the round. */
  ghost predicate Leave(b: Barrier, s: State, s': State, c: nat)
    requires b.Valid() && |s.flags| == |s.cores| == b.Cores()
  {
    && c < b.Cores() && s.cores[c].Waiting? && s.cores[c].seen == b.Cores()
    && s' == s.(cores := s.cores[c := Setting(s.cores[c].round + 1)])
  }

  /** A step of some core; a look at a flag that does not pass changes nothing. */
  ghost predicate Step(b: Barrier, s: State, s': State)
    requires b.Valid() && |s.flags| == |s.cores| == b.Cores()
  {
    s' == s || exists c :: SetFlag(b, s, s', c) || See(b, s, s', c) || Leave(b, s, s', c)
  }

  ghost predicate Run(b: Barrier, run: seq<State>)
  {
    && |run| > 0 && b.Valid() && Init(b, run[0])
    && (forall i :: 0 <= i < |run| ==> |run[i].flags| == |run[i].cores| == b.Cores())
    && (forall i :: 0 <= i < |run| - 1 ==> Step(b, run[i], run[i + 1]))
  }

  // The order in which flags are visited

  lemma {:induction false} TargetInRange(b: Barrier, c: nat, i: nat)
    requires b.ranks > 0 && b.blocks > 0
    ensures 0 <= b.Target(c, i) < b.Cores()
  {
    BlockWithin((c / b.blocks + i / b.blocks) % b.ranks, b.blocks, b.ranks);
  }

  /** Every core's flag is visited. */
  lemma {:induction false} TargetCovers(b: Barrier, c: nat, d: nat) returns (i: nat)
    requires b.ranks > 0 && b.blocks > 0 && d < b.Cores()
    ensures i < b.Cores() && b.Target(c, i) == d
  {
    var home := d / b.blocks;
    DivisionBounds(d, b.blocks);
    assert home < b.ranks by {
      if home >= b.ranks {
        MulMonotone(b.ranks, home, b.blocks);
      }
    }
    var r := (home - c / b.blocks) % b.ranks;
    var place := d - home * b.blocks;
    i := r * b.blocks + place;
    BlockWithin(r, b.blocks, b.ranks);
    BlockOf(i, r, b.blocks);
    RankOffset(c / b.blocks, home, b.ranks);
    assert i % b.blocks == place by {
      assert i == b.blocks * (i / b.blocks) + i % b.blocks;
    }
  }

  lemma {:induction false} RankOffset(own: nat, home: nat, ranks: nat)
    requires home < ranks
    ensures (own + (home - own) % ranks) % ranks == home
  {
    var r := (home - own) % ranks;
    var q := (home - own) / ranks;
    assert home - own == ranks * q + r;
    assert own + r == home - ranks * q;
    assert own + r == ranks * (-q) + home;
    Residue(own + r, -q, home, ranks);
  }

  // What every run keeps

  /** The flag of core `c` shows how often the core has set it. */
  ghost predicate FlagShows(b: Barrier, s: State, c: nat)
    requires b.Valid() && |s.flags| == |s.cores| == b.Cores() && c < b.Cores()
  {
    var n := Sets(s.cores[c]);
    if n == 0 then High(s.flags[c]) != b.magic else n <= |b.events| && s.flags[c] == b.Value(n - 1)
  }

  /** The flags that a waiting core has seen belong to cores that have set this round. */
  ghost predicate SeenAreSet(b: Barrier, s: State, c: nat)
    requires b.Valid() && |s.flags| == |s.cores| == b.Cores() && c < b.Cores()
  {
    s.cores[c].Waiting? ==>
      && s.cores[c].seen <= b.Cores()
      && forall i :: 0 <= i < s.cores[c].seen ==> HasSet(b, s, b.Target(c, i), s.cores[c].round)
  }

  ghost predicate HasSet(b: Barrier, s: State, d: int, k: nat)
  {
    0 <= d < |s.cores| && Sets(s.cores[d]) > k
  }

  /** Every core has set all rounds that core `c` has left. */
  ghost predicate LeftAreSet(b: Barrier, s: State, c: nat)
    requires c < |s.cores|
  {
    forall d :: 0 <= d < |s.cores| ==> Sets(s.cores[d]) >= s.cores[c].round
  }

  ghost predicate Inv(b: Barrier, s: State)
  {
    && b.Valid() && |s.flags| == |s.cores| == b.Cores()
    && forall c :: 0 <= c < b.Cores() ==> FlagShows(b, s, c) && SeenAreSet(b, s, c) && LeftAreSet(b, s, c)
  }

  /** A flag passes for round `k` exactly when its core has set round `k`. */
  lemma {:induction false} PassesMeans(b: Barrier, s: State, d: nat, k: nat)
    requires b.Valid() && |s.flags| == |s.cores| == b.Cores() && d < b.Cores() && k < |b.events|
    requires FlagShows(b, s, d)
    ensures Passes(s.flags[d], b.Value(k), true) <==> Sets(s.cores[d]) > k
  {
    var n := Sets(s.cores[d]);
    if n == 0 {
      StaleNeverPasses(s.flags[d], b.magic, b.events[k]);
    } else {
      PassesExactly(b.magic, b.events[k], b.magic, b.events[n - 1]);
    }
  }

  /** How often cores have set never decreases. */
  lemma {:induction false} SetsGrow(b: Barrier, s: State, s': State, d: nat)
    requires b.Valid() && |s.flags| == |s.cores| == b.Cores() && Step(b, s, s') && d < b.Cores()
    ensures |s'.cores| == b.Cores() && Sets(s'.cores[d]) >= Sets(s.cores[d])
  {
  }

  lemma {:induction false} StepCore(b: Barrier, s: State, s': State, c: nat, e: nat)
    requires Inv(b, s) && c < b.Cores() && e < b.Cores()
    requires SetFlag(b, s, s', c) || See(b, s, s', c) || Leave(b, s, s', c)
    ensures |s'.flags| == |s'.cores| == b.Cores()
    ensures FlagShows(b, s', e) && SeenAreSet(b, s', e) && LeftAreSet(b, s', e)
  {
    forall d | 0 <= d < b.Cores()
      ensures Sets(s'.cores[d]) >= Sets(s.cores[d])
    {
      SetsGrow(b, s, s', d);
    }
    assert FlagShows(b, s, e) && SeenAreSet(b, s, e) && LeftAreSet(b, s, e);
    if e == c {
      if See(b, s, s', c) {
        var t := b.Target(c, s.cores[c].seen);
        assert FlagShows(b, s, t);
        PassesMeans(b, s, t, s.cores[c].round);
      } else if Leave(b, s, s', c) {
        forall d | 0 <= d < b.Cores()
          ensures Sets(s'.cores[d]) >= s'.cores[c].round
        {
          var i := TargetCovers(b, c, d);
          assert HasSet(b, s, b.Target(c, i), s.cores[c].round);
        }
      }
    }
    if s.cores[e].Waiting? && s'.cores[e].Waiting? {
      forall i | 0 <= i < s.cores[e].seen
        ensures HasSet(b, s', b.Target(e, i), s.cores[e].round)
      {
        assert HasSet(b, s, b.Target(e, i), s.cores[e].round);
      }
    }
  }

  lemma {:induction false} StepInv(b: Barrier, s: State, s': State)
    requires Inv(b, s) && Step(b, s, s')
    ensures Inv(b, s')
  {
    if s' != s {
      var c :| SetFlag(b, s, s', c) || See(b, s, s', c) || Leave(b, s, s', c);
      forall e | 0 <= e < b.Cores()
        ensures |s'.flags| == |s'.cores| == b.Cores()
        ensures FlagShows(b, s', e) && SeenAreSet(b, s', e) && LeftAreSet(b, s', e)
      {
        StepCore(b, s, s', c, e);
      }
    }
  }

  lemma {:induction false} RunInv(b: Barrier, run: seq<State>, i: nat)
    requires Run(b, run) && i < |run|
    ensures Inv(b, run[i])
  {
    if i > 0 {
      RunInv(b, run, i - 1);
      StepInv(b, run[i - 1], run[i]);
    }
  }

  // Safety and progress

  /** No core leaves round `k` before every core has set round `k`. */
  lemma {:induction false} NoEarlyLeave(b: Barrier, run: seq<State>, i: nat, c: nat, d: nat, k: nat)
    requires Run(b, run) && i < |run| && c < b.Cores() && d < b.Cores() && run[i].cores[c].round > k
    ensures Sets(run[i].cores[d]) > k
  {
    RunInv(b, run, i);
    assert LeftAreSet(b, run[i], c);
  }

  /** Cores are never more than one round apart. */
  lemma {:induction false} OneRoundApart(b: Barrier, run: seq<State>, i: nat, c: nat, d: nat)
    requires Run(b, run) && i < |run| && c < b.Cores() && d < b.Cores()
    ensures -1 <= run[i].cores[c].round - run[i].cores[d].round <= 1
  {
    RunInv(b, run, i);
    assert LeftAreSet(b, run[i], c) && LeftAreSet(b, run[i], d);
  }

  lemma {:induction false} SetsGrowOverRun(b: Barrier, run: seq<State>, i: nat, j: nat, d: nat)
    requires Run(b, run) && i <= j < |run| && d < b.Cores()
    ensures Sets(run[i].cores[d]) <= Sets(run[j].cores[d])
  {
    if i < j {
      SetsGrowOverRun(b, run, i, j - 1, d);
      SetsGrow(b, run[j - 1], run[j], d);
    }
  }

  /** A flag that passes for round `k` passes for round `k` ever after. */
  lemma {:induction false} PassesForever(b: Barrier, run: seq<State>, i: nat, j: nat, d: nat, k: nat)
    requires Run(b, run) && i <= j < |run| && d < b.Cores() && k < |b.events|
    requires Passes(run[i].flags[d], b.Value(k), true)
    ensures Passes(run[j].flags[d], b.Value(k), true)
  {
    RunInv(b, run, i);
    RunInv(b, run, j);
    assert FlagShows(b, run[i], d) && FlagShows(b, run[j], d);
    PassesMeans(b, run[i], d, k);
    PassesMeans(b, run[j], d, k);
    SetsGrowOverRun(b, run, i, j, d);
  }

  /** Some core can move on. */
  ghost predicate CanMove(b: Barrier, s: State, c: nat)
    requires b.Valid() && |s.flags| == |s.cores| == b.Cores()
  {
    && c < b.Cores()
    && (if s.cores[c].Setting? then s.cores[c].round < |b.events|
        else s.cores[c].seen == b.Cores() || Satisfied(b, s, c))
  }

  /** The barrier never deadlocks: as long as a core has rounds left, some core can move on. */
  lemma {:induction false} NeverStuck(b: Barrier, run: seq<State>, i: nat, c: nat) returns (m: nat)
    requires Run(b, run) && i < |run| && c < b.Cores() && run[i].cores[c].round < |b.events|
    ensures CanMove(b, run[i], m)
  {
    RunInv(b, run, i);
    var s := run[i];
    var slow := Slowest(s.cores);
    m := slow;
    assert FlagShows(b, s, slow) && SeenAreSet(b, s, slow);
    if s.cores[slow].Waiting? && s.cores[slow].seen < b.Cores() {
      var t := b.Target(slow, s.cores[slow].seen);
      TargetInRange(b, slow, s.cores[slow].seen);
      assert FlagShows(b, s, t);
      PassesMeans(b, s, t, s.cores[slow].round);
      if Sets(s.cores[t]) <= s.cores[slow].round {
        m := t;
      }
    }
  }

  lemma {:induction false} Slowest(cores: seq<Core>) returns (m: nat)
    requires |cores| > 0
    ensures m < |cores| && forall d :: 0 <= d < |cores| ==> cores[m].round <= cores[d].round
  {
    m := 0;
    for d := 0 to |cores|
      invariant m < |cores| && forall k :: 0 <= k < d ==> cores[m].round <= cores[k].round
    {
      if cores[d].round < cores[m].round {
        m := d;
      }
    }
  }

  // Looks at copies of flags

  /**
   A core tests a copy of the flag it waits for, taken at some earlier point `i` of the
   run. If the copy passes, the flag itself still does, so testing copies adds no step.
   */
  lemma {:induction false} CopyStillPasses(b: Barrier, run: seq<State>, i: nat, j: nat, c: nat)
    requires Run(b, run) && i <= j < |run| && c < b.Cores()
    requires var core := run[j].cores[c]; core.Waiting? && core.round < |b.events| && core.seen < b.Cores()
    requires 0 <= b.Target(c, run[j].cores[c].seen) < b.Cores()
    requires Passes(run[i].flags[b.Target(c, run[j].cores[c].seen)], b.Value(run[j].cores[c].round), true)
    ensures Satisfied(b, run[j], c)
  {
    PassesForever(b, run, i, j, b.Target(c, run[j].cores[c].seen), run[j].cores[c].round);
  }

  /**
   `looks` are copies of the flags of cores `first` up to `first + n`, each flag of each
   copy read at its own point of the run, later copies at later points.
   */
  ghost predicate CopiesOf(
    b: Barrier, run: seq<State>, first: nat, n: nat, at: (nat, nat) -> nat, looks: seq<seq<int>>)
    requires Run(b, run) && first + n <= b.Cores()
  {
    && (forall k :: 0 <= k < |looks| ==> |looks[k]| == n)
    && (forall k, i :: 0 <= k < |looks| && 0 <= i < n ==>
      at(k, i) < |run| && looks[k][i] == run[at(k, i)].flags[first + i])
    && (forall k, j, i :: 0 <= k <= j < |looks| && 0 <= i < n ==> at(k, i) <= at(j, i))
  }

  /** In every run the polling loop may skip flags that have passed: its copies have the stability that it relies on. */
  lemma {:induction false} CopiesStay(
    b: Barrier, run: seq<State>, first: nat, n: nat, at: (nat, nat) -> nat, looks: seq<seq<int>>, round: nat)
    requires Run(b, run) && first + n <= b.Cores() && round < |b.events| && CopiesOf(b, run, first, n, at, looks)
    ensures PassesStay(looks, n, b.Value(round), true)
  {
    forall k, j, i | 0 <= k <= j < |looks| && 0 <= i < n && Passes(looks[k][i], b.Value(round), true)
      ensures Passes(looks[j][i], b.Value(round), true)
    {
      assert at(k, i) <= at(j, i);
      PassesForever(b, run, at(k, i), at(j, i), first + i, round);
    }
  }
}
