/**
 The deterministic routing tables used for benchmarks. The balanced distribution
 sends route k of token t to the rank that lies (t + k) mod R before the source,
 and cycles through that rank's experts. It refuses to answer when the ranks do
 not end up with equally many routes.
 */
module DeterministicRoutes {
  import opened Sums
  import opened RouteCounts
  import opened Wrappers

  datatype RouteError = InvalidDimensions | NotDivisible | NotBalanced

  datatype Distribution = CombineBalanced | RankShiftedUniform

  // Arithmetic on residues

  lemma {:induction false} NextResidue(x: int, n: nat)
    requires n > 0
    ensures (x + 1) % n == if x % n == n - 1 then 0 else x % n + 1
  {
    var q, r := x / n, x % n;
    assert x == n * q + r;
    if r == n - 1 {
      assert x + 1 == n * (q + 1) + 0;
      Residue(x + 1, q + 1, 0, n);
    } else {
      Residue(x + 1, q, r + 1, n);
    }
  }

  lemma {:induction false} NextQuotient(x: nat, n: nat)
    requires n > 0
    ensures (x + 1) / n == if x % n == n - 1 then x / n + 1 else x / n
  {
    var q, r := x / n, x % n;
    assert x == n * q + r;
    if r == n - 1 {
      assert x + 1 == (q + 1) * n;
      BlockOf(x + 1, q + 1, n);
    } else {
      assert x + 1 == q * n + (r + 1);
      BlockOf(x + 1, q, n);
    }
  }

  /** Adding a multiple of the modulus changes nothing. */
  lemma {:induction false} SameResidue(x: int, y: int, q: int, n: nat)
    requires n > 0 && x == y + n * q
    ensures x % n == y % n
  {
    assert y == n * (y / n) + y % n;
    assert x == n * (y / n + q) + y % n;
    Residue(x, y / n + q, y % n, n);
  }

  /** A sum has residue `a` exactly when the second term makes up for the first. */
  lemma {:induction false} SumResidue(t: int, k: int, a: nat, n: nat)
    requires a < n
    ensures (t + k) % n == a <==> k % n == (a - t) % n
  {
    var q := (t + k) / n;
    assert t + k == n * q + (t + k) % n;
    if (t + k) % n == a {
      assert k == (a - t) + n * q;
      SameResidue(k, a - t, q, n);
    }
    if k % n == (a - t) % n {
      assert k == n * (k / n) + k % n;
      assert a - t == n * ((a - t) / n) + (a - t) % n;
      assert t + k == a + n * (k / n - (a - t) / n);
      Residue(t + k, k / n - (a - t) / n, a, n);
    }
  }

  // Routes per residue

  /** Routes `k` of token `t` with residue `a`, among the first `k`. */
  function RowCount(n: nat, a: int, t: int, k: nat): nat
    requires n > 0
  {
    if k == 0 then 0 else RowCount(n, a, t, k - 1) + (if (t + (k - 1)) % n == a then 1 else 0)
  }

  /** Routes of the first `t` tokens with residue `a`. */
  function GridCount(n: nat, a: int, topk: nat, t: nat): nat
    requires n > 0
  {
    if t == 0 then 0 else GridCount(n, a, topk, t - 1) + RowCount(n, a, t - 1, topk)
  }

  /** In one token the residues take turns, starting with that of the token. */
  lemma {:induction false} RowCountIs(n: nat, a: nat, t: int, k: nat)
    requires a < n
    ensures RowCount(n, a, t, k) == k / n + (if (a - t) % n < k % n then 1 else 0)
  {
    if k > 0 {
      RowCountIs(n, a, t, k - 1);
      SumResidue(t, k - 1, a, n);
      NextResidue(k - 1, n);
      NextQuotient(k - 1, n);
    } else {
      assert 0 / n == 0 && 0 % n == 0;
    }
  }

  function Previous(n: nat, a: nat): (p: nat)
    requires a < n
    ensures p < n
  {
    if a == 0 then n - 1 else a - 1
  }

  /** The next token sees the residues shifted by one. */
  lemma {:induction false} RowShift(n: nat, a: nat, t: int, k: nat)
    requires a < n
    ensures RowCount(n, a, t + 1, k) == RowCount(n, Previous(n, a), t, k)
  {
    if k > 0 {
      RowShift(n, a, t, k - 1);
      NextResidue(t + (k - 1), n);
      assert t + 1 + (k - 1) == t + (k - 1) + 1;
    }
  }

  /** Neighbouring residues differ by the first token's count less that of the token after the last. */
  lemma {:induction false} GridDifference(n: nat, a: nat, topk: nat, t: nat)
    requires a < n
    ensures GridCount(n, a, topk, t) - GridCount(n, Previous(n, a), topk, t) ==
      RowCount(n, a, 0, topk) - RowCount(n, a, t, topk)
  {
    if t > 0 {
      GridDifference(n, a, topk, t - 1);
      RowShift(n, a, t - 1, topk);
    }
  }

  ghost predicate Equal(n: nat, topk: nat, tokens: nat)
    requires n > 0
  {
    forall a :: 0 <= a < n ==> GridCount(n, a, topk, tokens) == GridCount(n, 0, topk, tokens)
  }

  lemma {:induction false} InStep(n: nat, topk: nat, tokens: nat, a: nat)
    requires a < n && (tokens % n == 0 || topk % n == 0)
    ensures RowCount(n, a, 0, topk) == RowCount(n, a, tokens, topk)
  {
    RowCountIs(n, a, 0, topk);
    RowCountIs(n, a, tokens, topk);
    if tokens % n == 0 {
      assert tokens == n * (tokens / n);
      SameResidue(a - tokens, a, -(tokens / n), n);
    }
  }

  /** If the number of tokens or of routes per token is a multiple of R, all residues are equally frequent. */
  lemma {:induction false} DivisibleIsEqual(n: nat, topk: nat, tokens: nat, a: nat)
    requires a < n && (tokens % n == 0 || topk % n == 0)
    ensures GridCount(n, a, topk, tokens) == GridCount(n, 0, topk, tokens)
  {
    if a > 0 {
      DivisibleIsEqual(n, topk, tokens, a - 1);
      GridDifference(n, a, topk, tokens);
      InStep(n, topk, tokens, a);
    }
  }

  /** Otherwise the first residue after the tokens' remainder, or the one before it, is out of step. */
  lemma {:induction false} EqualIsDivisible(n: nat, topk: nat, tokens: nat)
    requires n > 0 && Equal(n, topk, tokens)
    ensures tokens % n == 0 || topk % n == 0
  {
    var s, q := tokens % n, topk % n;
    if s != 0 && q != 0 {
      OutOfStep(n, topk, tokens, s);
      OutOfStep(n, topk, tokens, s - 1);
      assert tokens == n * (tokens / n) + s;
      Residue(s - tokens, -(tokens / n), 0, n);
      assert s - 1 - tokens == n * (-(tokens / n) - 1) + (n - 1);
      Residue(s - 1 - tokens, -(tokens / n) - 1, n - 1, n);
      Residue(s, 0, s, n);
      Residue(s - 1, 0, s - 1, n);
    }
  }

  lemma {:induction false} OutOfStep(n: nat, topk: nat, tokens: nat, a: nat)
    requires a < n && Equal(n, topk, tokens)
    ensures a % n < topk % n <==> (a - tokens) % n < topk % n
  {
    GridDifference(n, a, topk, tokens);
    assert GridCount(n, a, topk, tokens) == GridCount(n, 0, topk, tokens);
    assert GridCount(n, Previous(n, a), topk, tokens) == GridCount(n, 0, topk, tokens);
    RowCountIs(n, a, 0, topk);
    RowCountIs(n, a, tokens, topk);
  }

  /** All ranks get equally many routes if and only if R divides S or K. */
  lemma {:induction false} EqualIff(n: nat, topk: nat, tokens: nat)
    requires n > 0
    ensures Equal(n, topk, tokens) <==> tokens % n == 0 || topk % n == 0
  {
    if Equal(n, topk, tokens) {
      EqualIsDivisible(n, topk, tokens);
    } else {
      var a :| 0 <= a < n && GridCount(n, a, topk, tokens) != GridCount(n, 0, topk, tokens);
      if tokens % n == 0 || topk % n == 0 {
        DivisibleIsEqual(n, topk, tokens, a);
      }
    }
  }

  // The generator

  /** The residue of the routes that rank `rank` sends to rank `g`. */
  function ResidueOf(ranks: nat, rank: nat, g: nat): (a: nat)
    requires ranks > 0
    ensures a < ranks
  {
    (rank - g) % ranks
  }

  lemma {:induction false} TargetIs(ranks: nat, rank: nat, x: nat, g: nat)
    requires rank < ranks && x < ranks && g < ranks
    ensures (rank - x) % ranks == g <==> x == ResidueOf(ranks, rank, g)
  {
    SumResidue(x, g, rank, ranks);
    SumResidue(g, x, rank, ranks);
    Residue(g, 0, g, ranks);
    Residue(x, 0, x, ranks);
    assert x + g == g + x;
  }

  /** Routes sent to rank `g` by the first `t` tokens and `k` routes of the next. */
  function SentTo(ranks: nat, rank: nat, topk: nat, t: nat, k: nat, g: nat): nat
    requires ranks > 0
  {
    GridCount(ranks, ResidueOf(ranks, rank, g), topk, t) + RowCount(ranks, ResidueOf(ranks, rank, g), t, k)
  }

  /** Cycling through the experts of a rank spreads `c` routes evenly. */
  function CycleCount(c: nat, perRank: nat, l: nat): nat
    requires perRank > 0
  {
    c / perRank + (if l < c % perRank then 1 else 0)
  }

  lemma {:induction false} CycleStep(c: nat, perRank: nat, l: nat)
    requires l < perRank
    ensures CycleCount(c + 1, perRank, l) == CycleCount(c, perRank, l) + (if l == c % perRank then 1 else 0)
  {
    NextResidue(c, perRank);
    NextQuotient(c, perRank);
  }

  ghost predicate Cycled(ids: seq<int>, counts: seq<nat>, perRank: nat)
    requires perRank > 0
  {
    forall g: nat, l: nat :: g < |counts| && l < perRank ==>
      Occurrences(ids, |ids|, ExpertId(g, perRank, l)) == CycleCount(counts[g], perRank, l)
  }

  function ExpertId(g: nat, perRank: nat, l: nat): nat
  {
    g * perRank + l
  }

  lemma {:induction false} ExpertIdUnique(g: nat, l: nat, g': nat, l': nat, perRank: nat)
    requires l < perRank && l' < perRank
    ensures ExpertId(g, perRank, l) == ExpertId(g', perRank, l') <==> g == g' && l == l'
  {
    BlockOf(ExpertId(g, perRank, l), g, perRank);
    BlockOf(ExpertId(g, perRank, l), g', perRank);
  }

  lemma {:induction false} CycledMore(ids: seq<int>, counts: seq<nat>, perRank: nat, target: nat)
    requires perRank > 0 && Cycled(ids, counts, perRank) && target < |counts|
    ensures Cycled(ids + [ExpertId(target, perRank, counts[target] % perRank)],
                   counts[target := counts[target] + 1], perRank)
  {
    var id := ExpertId(target, perRank, counts[target] % perRank);
    forall g: nat, l: nat | g < |counts| && l < perRank
      ensures Occurrences(ids + [id], |ids| + 1, ExpertId(g, perRank, l)) ==
        CycleCount(counts[target := counts[target] + 1][g], perRank, l)
    {
      OccurrencesPrefix(ids + [id], ids, |ids|, ExpertId(g, perRank, l));
      ExpertIdUnique(g, l, target, counts[target] % perRank, perRank);
      if g == target {
        CycleStep(counts[g], perRank, l);
      }
    }
  }

  lemma {:induction false} SentMore(ranks: nat, rank: nat, topk: nat, t: nat, k: nat, g: nat)
    requires rank < ranks && g < ranks
    ensures SentTo(ranks, rank, topk, t, k + 1, g) ==
      SentTo(ranks, rank, topk, t, k, g) + (if (rank - (t + k) % ranks) % ranks == g then 1 else 0)
  {
    TargetIs(ranks, rank, (t + k) % ranks, g);
  }

  /**
   Route `k` of token `t` goes to the rank that lies (t + k) mod R before the source,
   and there to the expert whose turn it is after all earlier routes to this rank.
   */
  ghost predicate AimsAt(id: int, rank: nat, ranks: nat, topk: nat, perRank: nat, t: nat, k: nat)
    requires ranks > 0 && perRank > 0
  {
    var target := (rank - (t + k) % ranks) % ranks;
    id / perRank == target && id % perRank == SentTo(ranks, rank, topk, t, k, target) % perRank
  }

  ghost predicate Aims(ids: seq<int>, rank: nat, ranks: nat, topk: nat, perRank: nat, t: nat, k: nat)
    requires ranks > 0 && perRank > 0
  {
    0 <= t * topk + k < |ids| && AimsAt(ids[t * topk + k], rank, ranks, topk, perRank, t, k)
  }

  /** All routes of the first `tokens` tokens and the first `n` of the next are aimed. */
  ghost predicate Aimed(ids: seq<int>, rank: nat, ranks: nat, topk: nat, perRank: nat, tokens: nat, n: nat)
    requires ranks > 0 && perRank > 0
  {
    && (forall t: nat, k: nat :: t < tokens && k < topk ==> Aims(ids, rank, ranks, topk, perRank, t, k))
    && (forall k: nat :: k < n ==> Aims(ids, rank, ranks, topk, perRank, tokens, k))
  }

  lemma {:induction false} AimsStays(
    ids: seq<int>, more: seq<int>, rank: nat, ranks: nat, topk: nat, perRank: nat, t: nat, k: nat)
    requires ranks > 0 && perRank > 0 && ids <= more && Aims(ids, rank, ranks, topk, perRank, t, k)
    ensures Aims(more, rank, ranks, topk, perRank, t, k)
  {
  }

  lemma {:induction false} AimsLast(
    ids: seq<int>, rank: nat, ranks: nat, topk: nat, perRank: nat, t: nat, k: nat, target: nat, local: nat)
    requires ranks > 0 && local < perRank
    requires |ids| == t * topk + k + 1 && ids[t * topk + k] == ExpertId(target, perRank, local)
    requires target == (rank - (t + k) % ranks) % ranks
    requires local == SentTo(ranks, rank, topk, t, k, target) % perRank
    ensures Aims(ids, rank, ranks, topk, perRank, t, k)
  {
    BlockOf(ExpertId(target, perRank, local), target, perRank);
    Residue(ExpertId(target, perRank, local), target, local, perRank);
  }

  lemma {:induction false} AimedMore(
    ids: seq<int>, rank: nat, ranks: nat, topk: nat, perRank: nat, t: nat, n: nat, target: nat, local: nat)
    requires ranks > 0 && local < perRank && |ids| == t * topk + n && Aimed(ids, rank, ranks, topk, perRank, t, n)
    requires target == (rank - (t + n) % ranks) % ranks
    requires local == SentTo(ranks, rank, topk, t, n, target) % perRank
    ensures Aimed(ids + [ExpertId(target, perRank, local)], rank, ranks, topk, perRank, t, n + 1)
  {
    var more := ids + [ExpertId(target, perRank, local)];
    forall t': nat, k: nat | t' < t && k < topk
      ensures Aims(more, rank, ranks, topk, perRank, t', k)
    {
      AimsStays(ids, more, rank, ranks, topk, perRank, t', k);
    }
    forall k: nat | k < n
      ensures Aims(more, rank, ranks, topk, perRank, t, k)
    {
      AimsStays(ids, more, rank, ranks, topk, perRank, t, k);
    }
    AimsLast(more, rank, ranks, topk, perRank, t, n, target, local);
  }

  lemma {:induction false} AimedRow(ids: seq<int>, rank: nat, ranks: nat, topk: nat, perRank: nat, t: nat)
    requires ranks > 0 && perRank > 0 && Aimed(ids, rank, ranks, topk, perRank, t, topk)
    ensures Aimed(ids, rank, ranks, topk, perRank, t + 1, 0)
  {
  }

  /** The loops over tokens and routes. */
  method Generate(rank: nat, ranks: nat, tokens: nat, topk: nat, perRank: nat)
    returns (ids: seq<int>, counts: seq<nat>)
    requires rank < ranks && perRank > 0
    ensures |ids| == tokens * topk && |counts| == ranks && ValidRoutes(ids, ranks * perRank)
    ensures forall g :: 0 <= g < ranks ==> counts[g] == SentTo(ranks, rank, topk, tokens, 0, g)
    ensures Cycled(ids, counts, perRank) && Sum(counts) == |ids|
    ensures Aimed(ids, rank, ranks, topk, perRank, tokens, 0)
  {
    ids, counts := [], seq(ranks, g => 0);
    assert Cycled(ids, counts, perRank);
    SumConstant(counts, 0);
    for token := 0 to tokens
      invariant |ids| == token * topk && |counts| == ranks && ValidRoutes(ids, ranks * perRank)
      invariant forall g :: 0 <= g < ranks ==> counts[g] == SentTo(ranks, rank, topk, token, 0, g)
      invariant Cycled(ids, counts, perRank) && Sum(counts) == |ids|
      invariant Aimed(ids, rank, ranks, topk, perRank, token, 0)
    {
      for k := 0 to topk
        invariant |ids| == token * topk + k && |counts| == ranks && ValidRoutes(ids, ranks * perRank)
        invariant forall g :: 0 <= g < ranks ==> counts[g] == SentTo(ranks, rank, topk, token, k, g)
        invariant Cycled(ids, counts, perRank) && Sum(counts) == |ids|
        invariant Aimed(ids, rank, ranks, topk, perRank, token, k)
      {
        ids, counts := NextRoute(rank, ranks, topk, perRank, token, k, ids, counts);
      }
      AimedRow(ids, rank, ranks, topk, perRank, token);
      assert (token + 1) * topk == token * topk + topk;
    }
  }

  method NextRoute(
    rank: nat, ranks: nat, topk: nat, perRank: nat, token: nat, k: nat, ids: seq<int>, counts: seq<nat>)
    returns (ids': seq<int>, counts': seq<nat>)
    requires rank < ranks && perRank > 0 && |counts| == ranks && ValidRoutes(ids, ranks * perRank)
    requires forall g :: 0 <= g < ranks ==> counts[g] == SentTo(ranks, rank, topk, token, k, g)
    requires Cycled(ids, counts, perRank) && Sum(counts) == |ids|
    requires |ids| == token * topk + k && Aimed(ids, rank, ranks, topk, perRank, token, k)
    ensures Aimed(ids', rank, ranks, topk, perRank, token, k + 1)
    ensures |ids'| == |ids| + 1 && |counts'| == ranks && ValidRoutes(ids', ranks * perRank)
    ensures forall g :: 0 <= g < ranks ==> counts'[g] == SentTo(ranks, rank, topk, token, k + 1, g)
    ensures Cycled(ids', counts', perRank) && Sum(counts') == |ids'|
  {
    var target := (rank - (token + k) % ranks) % ranks;
    var local := counts[target] % perRank;
    CycledMore(ids, counts, perRank, target);
    AimedMore(ids, rank, ranks, topk, perRank, token, k, target, local);
    BlockWithin(target, perRank, ranks);
    SumUpdate(counts, target, counts[target] + 1);
    forall g | 0 <= g < ranks
      ensures SentTo(ranks, rank, topk, token, k + 1, g) == counts[g] + (if target == g then 1 else 0)
    {
      SentMore(ranks, rank, topk, token, k, g);
    }
    ids' := ids + [ExpertId(target, perRank, local)];
    counts' := counts[target := counts[target] + 1];
  }

  ghost predicate AllAre(counts: seq<nat>, c: int)
  {
    forall g :: 0 <= g < |counts| ==> counts[g] == c
  }

  /** Every residue belongs to some rank. */
  lemma {:induction false} ResidueTwice(ranks: nat, rank: nat, a: nat)
    requires rank < ranks && a < ranks
    ensures ResidueOf(ranks, rank, ResidueOf(ranks, rank, a)) == a
  {
    var g := ResidueOf(ranks, rank, a);
    TargetIs(ranks, rank, a, g);
  }

  /** The ranks get S*K/R routes each if and only if all residues are equally frequent. */
  lemma {:induction false} BalancedIff(rank: nat, ranks: nat, tokens: nat, topk: nat, counts: seq<nat>, share: nat)
    requires rank < ranks && |counts| == ranks && Sum(counts) == share * ranks
    requires forall g :: 0 <= g < ranks ==> counts[g] == SentTo(ranks, rank, topk, tokens, 0, g)
    ensures AllAre(counts, share) <==> Equal(ranks, topk, tokens)
  {
    if AllAre(counts, share) {
      forall a | 0 <= a < ranks
        ensures GridCount(ranks, a, topk, tokens) == share
      {
        ResidueTwice(ranks, rank, a);
        assert counts[ResidueOf(ranks, rank, a)] == share;
      }
    }
    if Equal(ranks, topk, tokens) {
      var c := GridCount(ranks, 0, topk, tokens);
      assert AllAre(counts, c);
      ConstantShare(counts, c, share);
    }
  }

  lemma {:induction false} ConstantShare(counts: seq<nat>, c: nat, share: nat)
    requires |counts| > 0 && AllAre(counts, c) && Sum(counts) == share * |counts|
    ensures c == share
  {
    SumConstant(counts, c);
    if c < share {
      MulMonotone(c + 1, share, |counts|);
    } else if c > share {
      MulMonotone(share + 1, c, |counts|);
    }
  }

  /** Equal shares that the experts of a rank divide evenly give every expert the same number of routes. */
  lemma {:induction false} UniformHistogram(
    ids: seq<int>, counts: seq<nat>, ranks: nat, perRank: nat, each: nat, e: nat)
    requires perRank > 0 && |counts| == ranks && e < ranks * perRank
    requires Cycled(ids, counts, perRank) && AllAre(counts, each * perRank)
    ensures Occurrences(ids, |ids|, e) == each
  {
    DivisionBounds(e, perRank);
    var g, l := e / perRank, e - e / perRank * perRank;
    if g >= ranks {
      MulMonotone(ranks, g, perRank);
    }
    assert e == ExpertId(g, perRank, l);
    assert Occurrences(ids, |ids|, ExpertId(g, perRank, l)) == CycleCount(counts[g], perRank, l);
    BlockOf(each * perRank, each, perRank);
    assert counts[g] == perRank * each + 0;
    Residue(counts[g], each, 0, perRank);
  }

  predicate ValidDimensions(rank: int, rankSize: int, tokens: int, topk: int, experts: int)
  {
    && rankSize > 0 && 0 <= rank < rankSize && tokens > 0 && 0 < topk <= experts && experts % rankSize == 0
  }

  /** `tokens * topk` routes over the experts, given as `each` times the experts. */
  lemma {:induction false} Shares(tokens: nat, topk: nat, experts: nat, ranks: nat)
    returns (each: nat, perRank: nat)
    requires experts > 0 && ranks > 0 && tokens * topk % experts == 0 && experts % ranks == 0
    ensures perRank == experts / ranks && experts == ranks * perRank && perRank > 0
    ensures each == tokens * topk / experts && tokens * topk == each * experts
    ensures each * perRank == tokens * topk / ranks && each * perRank * ranks == tokens * topk
  {
    each, perRank := tokens * topk / experts, experts / ranks;
    assert each * experts == each * (ranks * perRank) == each * perRank * ranks;
    BlockOf(tokens * topk, each * perRank, ranks);
  }

  /**
   The routing table of one source rank. The balanced distribution exists exactly
   when the experts divide S*K and the ranks divide S or K; it then aims every route
   at its rank and gives every expert the same number of routes.
   */
  method DeterministicRankTopk(rank: int, rankSize: int, tokens: int, topk: int, experts: int, d: Distribution)
    returns (r: Result<seq<int>, RouteError>)
    ensures r.Ok? <==>
      && ValidDimensions(rank, rankSize, tokens, topk, experts)
      && (d.CombineBalanced? ==>
        tokens * topk % experts == 0 && (tokens % rankSize == 0 || topk % rankSize == 0))
    ensures r.Err? ==> (r.error == InvalidDimensions <==> !ValidDimensions(rank, rankSize, tokens, topk, experts))
    ensures r.Err? && r.error == NotDivisible ==> experts > 0 && tokens * topk % experts != 0
    ensures r.Err? && r.error == NotBalanced ==> experts > 0 && tokens * topk % experts == 0
    ensures r.Ok? ==> |r.value| == tokens * topk && ValidRoutes(r.value, experts)
    ensures r.Ok? && d.CombineBalanced? ==>
      forall e :: 0 <= e < experts ==> Occurrences(r.value, |r.value|, e) == tokens * topk / experts
    ensures r.Ok? && d.CombineBalanced? ==>
      forall t: nat, k: nat :: t < tokens && k < topk ==> Aims(r.value, rank, rankSize, topk, experts / rankSize, t, k)
    ensures r.Ok? && d.RankShiftedUniform? ==>
      forall i :: 0 <= i < |r.value| ==> r.value[i] == (i + rank * topk) % experts
  {
    if !ValidDimensions(rank, rankSize, tokens, topk, experts) {
      return Err(InvalidDimensions);
    }
    MulMonotone(0, tokens, topk);
    if d.RankShiftedUniform? {
      return Ok(seq(tokens * topk, i => (i + rank * topk) % experts));
    }
    if tokens * topk % experts != 0 {
      return Err(NotDivisible);
    }
    ghost var each, perRank' := Shares(tokens, topk, experts, rankSize);
    var perRank := experts / rankSize;
    var ids, counts := Generate(rank, rankSize, tokens, topk, perRank);
    var expected := tokens * topk / rankSize;
    BalancedIff(rank, rankSize, tokens, topk, counts, expected);
    EqualIff(rankSize, topk, tokens);
    if exists g :: 0 <= g < |counts| && counts[g] != expected {
      return Err(NotBalanced);
    }
    forall e | 0 <= e < experts
      ensures Occurrences(ids, |ids|, e) == each
    {
      UniformHistogram(ids, counts, rankSize, perRank, each, e);
    }
    return Ok(ids);
  }
}
