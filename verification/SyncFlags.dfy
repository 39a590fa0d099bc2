/**
 Cross-core barriers by flags. A flag combines the magic of the launch (high
 word) with an event number (low word). In each round a core sets its own outer
 flag and then waits for the outer flags of all cores of all ranks.
 */
module SyncFlags {
  const HIGH := 0x1_0000_0000
  const FLAG_UNIT_INT_NUM := 4

  type i32 = x: int | -0x8000_0000 <= x < 0x8000_0000

  // Flag values

  /**
   `magic` shifted into the high word, or-ed with the sign-extended `value`: a
   negative value fills the high word with ones and hides the magic.
   */
  function Merge(magic: i32, value: i32): int
  {
    if value >= 0 then magic * HIGH + value else value
  }

  /** The high word, which the source selects with its mask. */
  function High(v: int): int
  {
    v / HIGH
  }

  /** The test on one flag: far enough and, if `mustEqual`, of the same magic. */
  predicate Passes(v: int, check: int, mustEqual: bool)
  {
    if mustEqual then !(v < check || High(v) != High(check)) else !(v < check || High(v) < High(check))
  }

  lemma {:induction false} MergeParts(magic: i32, value: i32)
    requires value >= 0
    ensures High(Merge(magic, value)) == magic
  {
  }

  /** With event numbers that are not negative, a flag passes exactly when it has this magic and is far enough. */
  lemma {:induction false} PassesExactly(magic: i32, value: i32, magic': i32, value': i32)
    requires value >= 0 && value' >= 0
    ensures Passes(Merge(magic', value'), Merge(magic, value), true) <==> magic' == magic && value' >= value
    ensures Passes(Merge(magic', value'), Merge(magic, value), false) <==>
      magic' > magic || (magic' == magic && value' >= value)
  {
    MergeParts(magic, value);
    MergeParts(magic', value');
    if magic' < magic {
      assert magic' * HIGH + HIGH <= magic * HIGH;
    }
    if magic < magic' {
      assert magic * HIGH + HIGH <= magic' * HIGH;
    }
  }

  /** The strict test tells launches apart for an event number if and only if that number is not negative. */
  lemma {:induction false} MagicSeparates(value: i32)
    ensures (forall magic: i32, magic': i32 ::
      Passes(Merge(magic', value), Merge(magic, value), true) <==> magic' == magic) <==> value >= 0
  {
    if value >= 0 {
      forall magic: i32, magic': i32
        ensures Passes(Merge(magic', value), Merge(magic, value), true) <==> magic' == magic
      {
        PassesExactly(magic, value, magic', value);
      }
    } else {
      assert Merge(0, value) == Merge(1, value);
      assert Passes(Merge(0, value), Merge(1, value), true);
    }
  }

  /** A flag of another magic never passes the strict test. */
  lemma {:induction false} StaleNeverPasses(v: int, magic: i32, value: i32)
    requires value >= 0 && High(v) != magic
    ensures !Passes(v, Merge(magic, value), true)
  {
    MergeParts(magic, value);
  }

  // Flag addresses

  /** Offset of a flag in the shared memory of its rank: inner flags first, then outer flags, one unit per core. */
  function FlagOffset(outer: bool, blockNum: nat, block: nat): int
  {
    (if outer then blockNum * FLAG_UNIT_INT_NUM else 0) + block * FLAG_UNIT_INT_NUM
  }

  /** Flags of different cores or kinds do not overlap. */
  lemma {:induction false} FlagsDisjoint(blockNum: nat, outer: bool, block: nat, outer': bool, block': nat)
    requires block < blockNum && block' < blockNum && (outer != outer' || block != block')
    ensures var a, b := FlagOffset(outer, blockNum, block), FlagOffset(outer', blockNum, block');
      a + FLAG_UNIT_INT_NUM <= b || b + FLAG_UNIT_INT_NUM <= a
  {
  }

  // The polling loop

  ghost predicate AllPass(flags: seq<int>, n: nat, check: int, mustEqual: bool)
  {
    n <= |flags| && forall i :: 0 <= i < n ==> Passes(flags[i], check, mustEqual)
  }

  /** A flag that passes in one look passes in every later one. */
  ghost predicate PassesStay(looks: seq<seq<int>>, n: nat, check: int, mustEqual: bool)
  {
    && (forall k :: 0 <= k < |looks| ==> |looks[k]| == n)
    && (forall k, j, i :: 0 <= k <= j < |looks| && 0 <= i < n && Passes(looks[k][i], check, mustEqual) ==>
      Passes(looks[j][i], check, mustEqual))
  }

  /**
   Waiting for `n` consecutive flags: `looks` are the contents found by successive
   copies. Flags that have passed are not looked at again, so this is right
   because a flag that passes keeps passing: the wait ends with the first look in
   which all flags pass.
   */
  method WaitOneRankPartFlag(looks: seq<seq<int>>, n: nat, check: int, mustEqual: bool)
    returns (done: bool, polls: nat)
    requires PassesStay(looks, n, check, mustEqual)
    ensures polls <= |looks| && (!done ==> polls == |looks|)
    ensures done ==> polls > 0 && AllPass(looks[polls - 1], n, check, mustEqual)
    ensures forall k :: 0 <= k < (if done then polls - 1 else polls) ==> !AllPass(looks[k], n, check, mustEqual)
  {
    var checked := 0;
    polls := 0;
    done := false;
    while !done && polls < |looks|
      invariant checked <= n && polls <= |looks|
      invariant checked > 0 || done ==> polls > 0 && AllPass(looks[polls - 1], checked, check, mustEqual)
      invariant if done then checked == n else polls > 0 ==> checked < n
      invariant forall k :: 0 <= k < (if done then polls - 1 else polls) ==> !AllPass(looks[k], n, check, mustEqual)
      decreases |looks| - polls
    {
      var local := looks[polls];
      assert AllPass(local, checked, check, mustEqual);
      while checked < n && Passes(local[checked], check, mustEqual)
        invariant checked <= n && AllPass(local, checked, check, mustEqual)
      {
        checked := checked + 1;
      }
      done := checked == n;
      polls := polls + 1;
    }
  }
}
