/**
 Finite sums, columns of integer tables, and cardinalities of index sets: the
 arithmetic that the planner and the route-replay proofs share.
 */
module Sums {

  function Sum(s: seq<int>): int
  {
    if |s| == 0 then 0 else Sum(s[..|s| - 1]) + s[|s| - 1]
  }

  lemma {:induction false} SumTake(s: seq<int>, k: nat)
    requires k < |s|
    ensures Sum(s[..k + 1]) == Sum(s[..k]) + s[k]
  {
    assert s[..k + 1][..k] == s[..k];
  }

  lemma {:induction false} SumAll(s: seq<int>)
    ensures Sum(s[..|s|]) == Sum(s)
  {
    assert s[..|s|] == s;
  }

  lemma {:induction false} SumAppend(a: seq<int>, b: seq<int>)
    ensures Sum(a + b) == Sum(a) + Sum(b)
  {
    if |b| == 0 {
      assert a + b == a;
    } else {
      SumAppend(a, b[..|b| - 1]);
      assert (a + b)[..|a + b| - 1] == a + b[..|b| - 1];
    }
  }

  lemma {:induction false} SumUpdate(s: seq<int>, i: nat, v: int)
    requires i < |s|
    ensures Sum(s[i := v]) == Sum(s) - s[i] + v
  {
    var n := |s| - 1;
    if i == n {
      assert s[i := v][..n] == s[..n];
    } else {
      SumUpdate(s[..n], i, v);
      assert s[i := v][..n] == s[..n][i := v];
    }
  }

  lemma {:induction false} SumConstant(s: seq<int>, c: int)
    requires forall i :: 0 <= i < |s| ==> s[i] == c
    ensures Sum(s) == c * |s|
  {
    if |s| > 0 {
      SumConstant(s[..|s| - 1], c);
    }
  }

  lemma {:induction false} SumMonotone(a: seq<int>, b: seq<int>)
    requires |a| == |b|
    requires forall i :: 0 <= i < |a| ==> a[i] <= b[i]
    ensures Sum(a) <= Sum(b)
  {
    if |a| > 0 {
      SumMonotone(a[..|a| - 1], b[..|b| - 1]);
    }
  }

  lemma {:induction false} SumNonNegative(s: seq<int>)
    requires forall i :: 0 <= i < |s| ==> s[i] >= 0
    ensures Sum(s) >= 0
  {
    var zeros := seq(|s|, i => 0);
    SumConstant(zeros, 0);
    SumMonotone(zeros, s);
  }

  lemma {:induction false} SumPrefixMonotone(s: seq<int>, i: nat, j: nat)
    requires i <= j <= |s|
    requires forall k :: 0 <= k < |s| ==> s[k] >= 0
    ensures Sum(s[..i]) <= Sum(s[..j])
  {
    assert s[..j] == s[..i] + s[i..j];
    SumAppend(s[..i], s[i..j]);
    SumNonNegative(s[i..j]);
  }

  lemma {:induction false} SumAddition(a: seq<int>, b: seq<int>, c: seq<int>)
    requires |a| == |b| == |c|
    requires forall i :: 0 <= i < |a| ==> c[i] == a[i] + b[i]
    ensures Sum(c) == Sum(a) + Sum(b)
  {
    var n := |a|;
    if n > 0 {
      SumAddition(a[..n - 1], b[..n - 1], c[..n - 1]);
    }
  }

  lemma {:induction false} SumShift(a: seq<int>, b: seq<int>, c: int)
    requires |a| == |b| && forall i :: 0 <= i < |a| ==> b[i] == a[i] - c
    ensures Sum(b) == Sum(a) - |a| * c
  {
    var n := |a|;
    if n > 0 {
      SumShift(a[..n - 1], b[..n - 1], c);
      assert n * c == (n - 1) * c + c;
    }
  }

  /** A sequence of one sign whose sum is zero is zero everywhere. */
  lemma {:induction false} SumZeroNonNegative(s: seq<int>)
    requires Sum(s) == 0
    requires forall i :: 0 <= i < |s| ==> s[i] >= 0
    ensures forall i :: 0 <= i < |s| ==> s[i] == 0
  {
    if |s| > 0 {
      SumNonNegative(s[..|s| - 1]);
      SumZeroNonNegative(s[..|s| - 1]);
      assert forall i :: 0 <= i < |s| - 1 ==> s[i] == s[..|s| - 1][i];
    }
  }

  lemma {:induction false} SumNegate(a: seq<int>, b: seq<int>)
    requires |a| == |b|
    requires forall i :: 0 <= i < |a| ==> b[i] == -a[i]
    ensures Sum(b) == -Sum(a)
  {
    if |a| > 0 {
      SumNegate(a[..|a| - 1], b[..|b| - 1]);
    }
  }

  lemma {:induction false} SumAtLeast(s: seq<int>, i: nat)
    requires i < |s| && forall k :: 0 <= k < |s| ==> s[k] >= 0
    ensures s[i] <= Sum(s)
  {
    SumUpdate(s, i, 0);
    SumNonNegative(s[i := 0]);
  }

  /** A positive sum has a positive entry, so its largest entry is positive. */
  lemma {:induction false} SumPositive(s: seq<int>, m: nat)
    requires m < |s| && Sum(s) > 0
    requires forall i :: 0 <= i < |s| ==> s[i] <= s[m]
    ensures s[m] > 0
  {
    if s[m] <= 0 {
      var zeros := seq(|s|, i => 0);
      SumConstant(zeros, 0);
      SumMonotone(s, zeros);
    }
  }

  /** The sum counts a single nonzero entry once. */
  lemma {:induction false} SumSingle(s: seq<int>, i: nat)
    requires i < |s|
    requires forall k :: 0 <= k < |s| && k != i ==> s[k] == 0
    ensures Sum(s) == s[i]
  {
    SumConstant(s[i := 0], 0);
    SumUpdate(s, i, 0);
  }

  // Tables

  predicate IsTable(m: seq<seq<int>>, rows: nat, cols: nat)
  {
    |m| == rows && forall i :: 0 <= i < rows ==> |m[i]| == cols
  }

  function Zeros(n: nat): (z: seq<int>)
    ensures |z| == n && forall i :: 0 <= i < n ==> z[i] == 0
  {
    seq(n, i => 0)
  }

  function ZeroTable(rows: nat, cols: nat): (z: seq<seq<int>>)
    ensures IsTable(z, rows, cols)
    ensures forall i, j :: 0 <= i < rows && 0 <= j < cols ==> z[i][j] == 0
  {
    seq(rows, i => Zeros(cols))
  }

  /** Entry `d` of every row (zero where the row is too short). */
  function Column(m: seq<seq<int>>, d: nat): (c: seq<int>)
    ensures |c| == |m|
    ensures forall i :: 0 <= i < |m| ==> c[i] == if d < |m[i]| then m[i][d] else 0
  {
    seq(|m|, i requires 0 <= i < |m| => if d < |m[i]| then m[i][d] else 0)
  }

  lemma {:induction false} ColumnUpdate(m: seq<seq<int>>, i: nat, row: seq<int>, d: nat)
    requires i < |m| && d < |m[i]| && d < |row|
    ensures Sum(Column(m[i := row], d)) == Sum(Column(m, d)) - m[i][d] + row[d]
  {
    assert Column(m[i := row], d) == Column(m, d)[i := row[d]];
    SumUpdate(Column(m, d), i, row[d]);
  }

  // Cardinalities

  function NonZeros(s: seq<int>): nat
  {
    if |s| == 0 then 0 else NonZeros(s[..|s| - 1]) + (if s[|s| - 1] != 0 then 1 else 0)
  }

  lemma {:induction false} NonZerosUpdate(s: seq<int>, i: nat, v: int)
    requires i < |s|
    ensures NonZeros(s[i := v]) == NonZeros(s) - (if s[i] != 0 then 1 else 0) + (if v != 0 then 1 else 0)
  {
    var n := |s| - 1;
    if i == n {
      assert s[i := v][..n] == s[..n];
    } else {
      NonZerosUpdate(s[..n], i, v);
      assert s[i := v][..n] == s[..n][i := v];
    }
  }

  lemma {:induction false} NonZerosBound(s: seq<int>)
    ensures NonZeros(s) <= |s|
  {
    if |s| > 0 {
      NonZerosBound(s[..|s| - 1]);
    }
  }

  /** The integers of the interval [begin, begin + n). */
  function Interval(begin: int, n: nat): (r: set<int>)
    ensures |r| == n
    ensures forall x :: x in r <==> begin <= x < begin + n
    decreases n
  {
    if n == 0 then {} else
      var rest := Interval(begin, n - 1);
      assert begin + n - 1 !in rest;
      rest + {begin + n - 1}
  }

  lemma {:induction false} SubsetCard<T>(a: set<T>, b: set<T>)
    requires a <= b
    ensures |a| <= |b|
  {
    assert b == a + (b - a);
    assert |b| == |a| + |b - a|;
  }

  predicate Distinct<T(==)>(s: seq<T>)
  {
    forall i, j :: 0 <= i < j < |s| ==> s[i] != s[j]
  }

  lemma {:induction false} DistinctCard<T>(s: seq<T>, bound: set<T>)
    requires Distinct(s)
    requires forall i :: 0 <= i < |s| ==> s[i] in bound
    ensures |s| <= |bound|
  {
    if |s| > 0 {
      var last := s[|s| - 1];
      DistinctCard(s[..|s| - 1], bound - {last});
    }
  }

  // Blocks of consecutive positions

  predicate BlockFits(h: nat, width: nat, n: nat)
  {
    0 <= h * width <= h * width + width <= n
  }

  /** The `h`-th run of `width` entries. */
  function Block(s: seq<int>, h: nat, width: nat): seq<int>
    requires BlockFits(h, width, |s|)
  {
    s[h * width..h * width + width]
  }

  /** Block `h` of `blocks` blocks lies inside their total length. */
  lemma {:induction false} BlockWithin(h: nat, width: nat, blocks: nat)
    requires h < blocks
    ensures BlockFits(h, width, blocks * width)
  {
    MulMonotone(h + 1, blocks, width);
    assert (h + 1) * width == h * width + width;
  }

  /** Summing block by block is summing everything. */
  lemma {:induction false} SumBlocks(s: seq<int>, width: nat, totals: seq<int>)
    requires |s| == |totals| * width
    requires forall h :: 0 <= h < |totals| ==> BlockFits(h, width, |s|) && totals[h] == Sum(Block(s, h, width))
    ensures Sum(s) == Sum(totals)
  {
    if |totals| > 0 {
      var last := |totals| - 1;
      var cut := last * width;
      assert cut + width == |s|;
      var init := s[..cut];
      forall h | 0 <= h < last
        ensures BlockFits(h, width, cut) && totals[..last][h] == Sum(Block(init, h, width))
      {
        BlockWithin(h, width, last);
        assert Block(init, h, width) == Block(s, h, width);
      }
      SumBlocks(init, width, totals[..last]);
      assert Block(s, last, width) == s[cut..];
      assert s == init + s[cut..];
      SumAppend(init, s[cut..]);
    }
  }

  lemma {:induction false} MulMonotone(a: int, b: int, w: nat)
    requires a <= b
    ensures a * w <= b * w
  {
    assert (b - a) * w >= 0;
  }

  /** Position `x` lies in block `h` exactly when `x / width` is `h`. */
  lemma {:induction false} BlockOf(x: nat, h: nat, width: nat)
    requires width > 0
    ensures x / width == h <==> h * width <= x < h * width + width
  {
    var q := x / width;
    DivisionBounds(x, width);
    if h < q {
      MulMonotone(h + 1, q, width);
      assert (h + 1) * width == h * width + width;
    } else if q < h {
      MulMonotone(q + 1, h, width);
      assert (q + 1) * width == q * width + width;
    }
  }

  lemma {:induction false} DivisionBounds(x: nat, width: nat)
    requires width > 0
    ensures (x / width) * width <= x < (x / width) * width + width
  {
    assert x == width * (x / width) + x % width;
    assert width * (x / width) == (x / width) * width;
  }

  /** The residue is the only remainder. */
  lemma {:induction false} Residue(x: int, q: int, r: nat, n: nat)
    requires r < n && x == n * q + r
    ensures x % n == r
  {
    var q' := x / n;
    assert x == n * q' + x % n;
    assert n * (q - q') == x % n - r;
    if q > q' {
      MulMonotone(1, q - q', n);
    } else if q < q' {
      MulMonotone(1, q' - q, n);
    }
  }
}
