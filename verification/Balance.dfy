/**
 The surplus/deficit balancer of the planner. Every home rank starts with the
 routes of its own experts minus the S*K routes it is allowed to end with; a
 round lets the rank with the largest surplus fill the rank with the largest
 deficit completely, even if that leaves the donor itself in deficit.
 */
module Balance {
  import opened Sums

  function FirstMax(values: seq<int>): (m: nat)
    requires |values| > 0
    ensures m < |values|
    ensures forall i :: 0 <= i < |values| ==> values[i] <= values[m]
    ensures forall i :: 0 <= i < m ==> values[i] < values[m]
  {
    if |values| == 1 then 0 else
      var m := FirstMax(values[..|values| - 1]);
      assert forall i :: 0 <= i < |values| - 1 ==> values[i] == values[..|values| - 1][i];
      if values[|values| - 1] > values[m] then |values| - 1 else m
  }

  function FirstMin(values: seq<int>): (m: nat)
    requires |values| > 0
    ensures m < |values|
    ensures forall i :: 0 <= i < |values| ==> values[m] <= values[i]
    ensures forall i :: 0 <= i < m ==> values[m] < values[i]
  {
    if |values| == 1 then 0 else
      var m := FirstMin(values[..|values| - 1]);
      assert forall i :: 0 <= i < |values| - 1 ==> values[i] == values[..|values| - 1][i];
      if values[|values| - 1] < values[m] then |values| - 1 else m
  }

  /** The routes of the experts that live on rank `home`. */
  function Owned(counts: seq<int>, ranks: nat, perRank: nat, home: nat): int
    requires |counts| == ranks * perRank && home < ranks
  {
    BlockWithin(home, perRank, ranks);
    Sum(Block(counts, home, perRank))
  }

  /** The routes owned by each home rank beyond (or, if negative, below) its share. */
  function InitialBalance(counts: seq<int>, ranks: nat, perRank: nat, share: int): (b: seq<int>)
    requires |counts| == ranks * perRank
    ensures |b| == ranks
    ensures forall h :: 0 <= h < ranks ==> b[h] == Owned(counts, ranks, perRank, h) - share
  {
    seq(ranks, h requires 0 <= h < ranks => Owned(counts, ranks, perRank, h) - share)
  }

  /** The balance is settled: no rank to take from, or no rank to fill. */
  predicate Settled(balance: seq<int>)
    requires |balance| > 0
  {
    balance[FirstMax(balance)] <= 0 || balance[FirstMin(balance)] >= 0
  }

  datatype Round = Round(balance: seq<int>, moves: seq<seq<int>>)

  predicate Shaped(r: Round)
  {
    |r.balance| > 0 && IsTable(r.moves, |r.balance|, |r.balance|)
  }

  /** One round: the first largest surplus fills the first largest deficit. */
  function Step(r: Round): (next: Round)
    requires Shaped(r) && !Settled(r.balance)
    ensures Shaped(next) && |next.balance| == |r.balance|
    ensures NonZeros(next.balance) < NonZeros(r.balance)
  {
    var surplus := FirstMax(r.balance);
    var deficit := FirstMin(r.balance);
    var count := -r.balance[deficit];
    var balance := r.balance[surplus := r.balance[surplus] - count];
    NonZerosUpdate(r.balance, surplus, r.balance[surplus] - count);
    NonZerosUpdate(balance, deficit, 0);
    Round(balance[deficit := 0], r.moves[surplus := r.moves[surplus][deficit := count]])
  }

  /** Rank `m` is the first with the largest value. */
  ghost predicate IsFirstMax(values: seq<int>, m: nat)
  {
    && m < |values| && (forall i :: 0 <= i < |values| ==> values[i] <= values[m])
    && (forall i :: 0 <= i < m ==> values[i] < values[m])
  }

  /** Rank `m` is the first with the smallest value. */
  ghost predicate IsFirstMin(values: seq<int>, m: nat)
  {
    && m < |values| && (forall i :: 0 <= i < |values| ==> values[m] <= values[i])
    && (forall i :: 0 <= i < m ==> values[m] < values[i])
  }

  /**
   A round moves exactly the deficit of the rank with the largest one, from the rank
   with the largest surplus, and nothing else.
   */
  lemma {:induction false} StepFillsLargest(r: Round) returns (surplus: nat, deficit: nat)
    requires Shaped(r) && !Settled(r.balance)
    ensures IsFirstMax(r.balance, surplus) && IsFirstMin(r.balance, deficit) && surplus != deficit
    ensures r.balance[deficit] < 0 < r.balance[surplus]
    ensures forall i :: 0 <= i < |r.balance| ==>
      Step(r).balance[i] ==
        if i == deficit then 0 else if i == surplus then r.balance[i] + r.balance[deficit] else r.balance[i]
    ensures forall i, d :: 0 <= i < |r.balance| && 0 <= d < |r.balance| ==>
      Step(r).moves[i][d] == if i == surplus && d == deficit then -r.balance[deficit] else r.moves[i][d]
  {
    surplus, deficit := FirstMax(r.balance), FirstMin(r.balance);
  }

  /** The rounds until the balance is settled. */
  function Settle(r: Round): (final: Round)
    requires Shaped(r)
    ensures Shaped(final) && |final.balance| == |r.balance| && Settled(final.balance)
    decreases NonZeros(r.balance)
  {
    if Settled(r.balance) then r else Settle(Step(r))
  }

  function Rounds(r: Round): nat
    requires Shaped(r)
    decreases NonZeros(r.balance)
  {
    if Settled(r.balance) then 0 else 1 + Rounds(Step(r))
  }

  function Start(balance: seq<int>): (r: Round)
    requires |balance| > 0
    ensures Shaped(r) && r.balance == balance
  {
    Round(balance, ZeroTable(|balance|, |balance|))
  }

  // What every round keeps

  /** Balances add up to zero and no rank is short of more than its whole share. */
  ghost predicate Conserved(balance: seq<int>, share: int)
  {
    Sum(balance) == 0 && forall i :: 0 <= i < |balance| ==> balance[i] >= -share
  }

  /**
   The balance of rank `i` is what it started with, less what it gave, plus what
   it received; and it gave no more than it owns.
   */
  ghost predicate Accounted(initial: seq<int>, share: int, r: Round, i: nat)
    requires i < |initial| == |r.balance| && Shaped(r)
  {
    && r.balance[i] == initial[i] - Sum(r.moves[i]) + Sum(Column(r.moves, i))
    && Sum(r.moves[i]) <= initial[i] + share
  }

  /** Nothing negative is moved, nothing is moved from a rank to itself, and no rank has two donors. */
  ghost predicate SingleDonor(moves: seq<seq<int>>, n: nat)
    requires IsTable(moves, n, n)
  {
    && (forall i, d :: 0 <= i < n && 0 <= d < n ==> moves[i][d] >= 0 && (moves[i][d] > 0 ==> i != d))
    && (forall i, j, d ::
          0 <= i < n && 0 <= j < n && 0 <= d < n && moves[i][d] > 0 && moves[j][d] > 0 ==> i == j)
  }

  /** A rank that has been filled is at zero. */
  ghost predicate FilledIsZero(r: Round)
    requires Shaped(r)
  {
    forall i, d :: 0 <= i < |r.moves| && 0 <= d < |r.moves| && r.moves[i][d] > 0 ==> r.balance[d] == 0
  }

  /** `moves` explains how `balance` came from `initial`. */
  ghost predicate Explains(initial: seq<int>, share: int, r: Round)
    requires |initial| == |r.balance| && Shaped(r)
  {
    && (forall i :: 0 <= i < |r.balance| ==> Accounted(initial, share, r, i))
    && SingleDonor(r.moves, |r.balance|)
    && FilledIsZero(r)
  }

  lemma {:induction false} StartExplains(balance: seq<int>, share: int)
    requires |balance| > 0 && share >= 0
    requires forall i :: 0 <= i < |balance| ==> balance[i] >= -share
    ensures Explains(balance, share, Start(balance))
  {
    var r := Start(balance);
    forall i | 0 <= i < |balance|
      ensures Accounted(balance, share, r, i)
    {
      SumConstant(r.moves[i], 0);
      SumConstant(Column(r.moves, i), 0);
    }
  }

  lemma {:induction false} StepConserved(r: Round, share: int)
    requires Shaped(r) && !Settled(r.balance) && Conserved(r.balance, share)
    ensures Conserved(Step(r).balance, share)
  {
    var surplus := FirstMax(r.balance);
    var deficit := FirstMin(r.balance);
    var reduced := r.balance[surplus := r.balance[surplus] + r.balance[deficit]];
    SumUpdate(r.balance, surplus, r.balance[surplus] + r.balance[deficit]);
    SumUpdate(reduced, deficit, 0);
  }

  /** The cell a round writes still holds zero: nothing that was moved is ever overwritten. */
  lemma {:induction false} CellUnwritten(initial: seq<int>, share: int, r: Round)
    requires Shaped(r) && !Settled(r.balance) && |initial| == |r.balance| && Explains(initial, share, r)
    ensures forall i :: 0 <= i < |r.balance| ==> r.moves[i][FirstMin(r.balance)] == 0
  {
  }

  lemma {:induction false} StepExplains(initial: seq<int>, share: int, r: Round)
    requires Shaped(r) && !Settled(r.balance) && |initial| == |r.balance|
    requires Explains(initial, share, r) && Conserved(r.balance, share)
    ensures Explains(initial, share, Step(r))
  {
    var next := Step(r);
    CellUnwritten(initial, share, r);
    forall i | 0 <= i < |r.balance|
      ensures Accounted(initial, share, next, i)
    {
      StepAccounted(initial, share, r, i);
    }
  }

  lemma {:induction false} StepAccounted(initial: seq<int>, share: int, r: Round, i: nat)
    requires Shaped(r) && !Settled(r.balance) && i < |initial| == |r.balance|
    requires Explains(initial, share, r) && Conserved(r.balance, share)
    ensures Accounted(initial, share, Step(r), i)
  {
    var surplus, deficit := FirstMax(r.balance), FirstMin(r.balance);
    var count := -r.balance[deficit];
    var row := r.moves[surplus][deficit := count];
    CellUnwritten(initial, share, r);
    SumUpdate(r.moves[surplus], deficit, count);
    ColumnUpdate(r.moves, surplus, row, i);
    assert Accounted(initial, share, r, i);
    if i == surplus {
      // The donor has a positive balance, so nobody has filled it yet.
      SumConstant(Column(r.moves, surplus), 0);
    }
  }

  /** The run of rounds from a conserved, explained state stays there and ends with all balances zero. */
  lemma {:induction false} SettleKeeps(initial: seq<int>, share: int, r: Round)
    requires Shaped(r) && |initial| == |r.balance|
    requires Explains(initial, share, r) && Conserved(r.balance, share)
    ensures Explains(initial, share, Settle(r))
    ensures forall i :: 0 <= i < |r.balance| ==> Settle(r).balance[i] == 0
    ensures Rounds(r) < NonZeros(r.balance) || Rounds(r) == 0
    decreases NonZeros(r.balance)
  {
    if Settled(r.balance) {
      SettledIsZero(r.balance);
    } else {
      StepExplains(initial, share, r);
      StepConserved(r, share);
      SettleKeeps(initial, share, Step(r));
      TwoNonZeros(r.balance);
    }
  }

  lemma {:induction false} SettledIsZero(balance: seq<int>)
    requires |balance| > 0 && Settled(balance) && Sum(balance) == 0
    ensures forall i :: 0 <= i < |balance| ==> balance[i] == 0
  {
    if balance[FirstMin(balance)] >= 0 {
      SumZeroNonNegative(balance);
    } else {
      var negated := seq(|balance|, i requires 0 <= i < |balance| => -balance[i]);
      SumNegate(balance, negated);
      SumZeroNonNegative(negated);
    }
  }

  lemma {:induction false} TwoNonZeros(balance: seq<int>)
    requires |balance| > 0 && !Settled(balance)
    ensures NonZeros(balance) >= 2
  {
    var surplus, deficit := FirstMax(balance), FirstMin(balance);
    NonZerosUpdate(balance, surplus, 0);
    NonZerosUpdate(balance[surplus := 0], deficit, 0);
  }

  /** What rank `i` owns, less what it gives, plus what it receives, is its share; it gives no more than it owns. */
  ghost predicate EndsWithShare(balance: seq<int>, share: int, moves: seq<seq<int>>, i: nat)
    requires i < |balance| && i < |moves|
  {
    balance[i] + share - Sum(moves[i]) + Sum(Column(moves, i)) == share && Sum(moves[i]) <= balance[i] + share
  }

  /**
   The balancer's guarantee: from any balance that adds up to zero with no rank
   short of more than its share, it stops within one round fewer than there are
   ranks; each rank is filled by at most one other rank; and every rank ends
   with exactly its share, having given no more than it owns.
   */
  lemma {:induction false} BalancerGuarantee(balance: seq<int>, share: int)
    requires |balance| > 0 && share >= 0 && Conserved(balance, share)
    ensures Rounds(Start(balance)) <= |balance| - 1
    ensures SingleDonor(Settle(Start(balance)).moves, |balance|)
    ensures forall i :: 0 <= i < |balance| ==> EndsWithShare(balance, share, Settle(Start(balance)).moves, i)
  {
    StartExplains(balance, share);
    SettleKeeps(balance, share, Start(balance));
    NonZerosBound(balance);
    var final := Settle(Start(balance));
    forall i | 0 <= i < |balance|
      ensures EndsWithShare(balance, share, final.moves, i)
    {
      assert Accounted(balance, share, final, i);
    }
  }

  method BalanceRanks(initial: seq<int>) returns (moves: seq<seq<int>>)
    requires |initial| > 0
    ensures moves == Settle(Start(initial)).moves
  {
    var balance := initial;
    moves := ZeroTable(|initial|, |initial|);
    while true
      invariant Shaped(Round(balance, moves))
      invariant Settle(Round(balance, moves)) == Settle(Start(initial))
      decreases NonZeros(balance)
    {
      var surplus := FirstMax(balance);
      var deficit := FirstMin(balance);
      if balance[surplus] <= 0 || balance[deficit] >= 0 {
        break;
      }
      balance, moves := FillDeficit(balance, moves, surplus, deficit);
    }
  }

  /** The donor fills the other rank completely. */
  method FillDeficit(balance: seq<int>, moves: seq<seq<int>>, surplus: nat, deficit: nat)
    returns (balance': seq<int>, moves': seq<seq<int>>)
    requires Shaped(Round(balance, moves)) && !Settled(balance)
    requires surplus == FirstMax(balance) && deficit == FirstMin(balance)
    ensures Round(balance', moves') == Step(Round(balance, moves))
  {
    var count := -balance[deficit];
    moves' := moves[surplus := moves[surplus][deficit := count]];
    balance' := balance[surplus := balance[surplus] - count];
    balance' := balance'[deficit := 0];
  }
}
