/**
 The ranking functions over the frames fixed for them (internal/function_window.go:613-757,
 internal/coordinator_extractor.go:556-603).  A partition is given by the sizes of its peer groups, in order.
 */
module WindowRanks {
  import opened Wrappers
  import opened WindowFrames

  // ----- partitions -----

  /** The rows in the first g groups. */
  function Before(groups: seq<nat>, g: nat): nat
    requires g <= |groups|
  {
    if g == 0 then 0 else Before(groups, g - 1) + groups[g - 1]
  }

  function Rows(groups: seq<nat>): nat {
    Before(groups, |groups|)
  }

  predicate Partition(groups: seq<nat>) {
    forall g :: 0 <= g < |groups| ==> groups[g] > 0
  }

  lemma {:induction false} BeforeGrows(groups: seq<nat>, g: nat, h: nat)
    requires g <= h <= |groups|
    ensures Before(groups, g) <= Before(groups, h)
    ensures g < h && Partition(groups) ==> Before(groups, g) < Before(groups, h)
  {
    if g < h {
      BeforeGrows(groups, g, h - 1);
    }
  }

  /** The peer group of the i-th row. */
  function GroupOf(groups: seq<nat>, i: nat): (g: nat)
    requires i < Rows(groups)
    ensures g < |groups| && Before(groups, g) <= i < Before(groups, g + 1)
  {
    GroupBelow(groups, i, |groups|)
  }

  function GroupBelow(groups: seq<nat>, i: nat, h: nat): (g: nat)
    requires h <= |groups| && i < Before(groups, h)
    ensures g < h && Before(groups, g) <= i < Before(groups, g + 1)
  {
    if i >= Before(groups, h - 1) then h - 1 else GroupBelow(groups, i, h - 1)
  }

  // ----- definitions, from the standard -----

  /** One more than the rows before the row's peers. */
  function RankOf(groups: seq<nat>, i: nat): nat
    requires i < Rows(groups)
  {
    1 + Before(groups, GroupOf(groups, i))
  }

  function PercentRankOf(groups: seq<nat>, i: nat): real
    requires i < Rows(groups)
  {
    if Rows(groups) == 1 then 0.0
    else (RankOf(groups, i) - 1) as real / (Rows(groups) - 1) as real
  }

  /** The share of rows up to and including the row's peers. */
  function CumeDistOf(groups: seq<nat>, i: nat): real
    requires i < Rows(groups)
  {
    Before(groups, GroupOf(groups, i) + 1) as real / Rows(groups) as real
  }

  /** One more than the groups before the row's. */
  function DenseRankOf(groups: seq<nat>, i: nat): nat
    requires i < Rows(groups)
  {
    GroupOf(groups, i) + 1
  }

  // ----- RANK -----

  /**
   GROUPS UNBOUNDED PRECEDING .. CURRENT ROW EXCLUDE TIES: row j counts for row i when it comes before i's peers
   or is i.
   */
  predicate InRankFrame(groups: seq<nat>, i: nat, j: nat)
    requires i < Rows(groups) && j < Rows(groups)
  {
    GroupOf(groups, j) < GroupOf(groups, i) || j == i
  }

  /** With an EXCLUDE clause SQLite builds each frame anew, scanning the partition. */
  method Rank(groups: seq<nat>) returns (r: seq<nat>)
    requires Partition(groups)
    ensures |r| == Rows(groups) && forall i :: 0 <= i < |r| ==> r[i] == RankOf(groups, i)
  {
    r := [];
    for i := 0 to Rows(groups)
      invariant |r| == i && forall k :: 0 <= k < i ==> r[k] == RankOf(groups, k)
    {
      var f := new AggregatedStatus();
      var start := Before(groups, GroupOf(groups, i));
      for j := 0 to Rows(groups)
        invariant fresh(f) && f.opt == Options(false, false)
        invariant |f.values| == (if j <= start then j else start) + (if i < j then 1 else 0)
      {
        SameSide(groups, i, j);
        if InRankFrame(groups, i, j) {
          f.Step(Some(1));
        }
      }
      BeforeGrows(groups, GroupOf(groups, i), |groups|);
      var counted := f.RelevantValues();
      r := r + [|counted.value|];
    }
  }

  lemma SameSide(groups: seq<nat>, i: nat, j: nat)
    requires i < Rows(groups) && j < Rows(groups)
    ensures GroupOf(groups, j) < GroupOf(groups, i) <==> j < Before(groups, GroupOf(groups, i))
  {
    var g, h := GroupOf(groups, i), GroupOf(groups, j);
    if h < g {
      BeforeGrows(groups, h + 1, g);
    } else {
      BeforeGrows(groups, g, h);
    }
  }

  // ----- DENSE_RANK -----

  class DenseRankState {
    var nStep: nat
    var nTotal: nat

    constructor ()
      ensures nStep == 0 && nTotal == 0
    {
      nStep, nTotal := 0, 0;
    }

    method Step()
      modifies this
      ensures nStep == 1 && nTotal == old(nTotal)
    {
      nStep := 1;
    }

    method Done() returns (r: nat)
      modifies this
      ensures nStep == old(nStep)
      ensures nTotal == old(nTotal) + (if nStep != 0 then 1 else 0) && r == nTotal
    {
      if nStep != 0 {
        nTotal := nTotal + 1;
      }
      r := nTotal;
    }
  }

  /** A value for each group is reported for each of its rows. */
  method Spread<T>(groups: seq<nat>, vs: seq<T>) returns (r: seq<T>)
    requires |vs| == |groups|
    ensures |r| == Rows(groups) && forall i :: 0 <= i < |r| ==> r[i] == vs[GroupOf(groups, i)]
  {
    r := [];
    for g := 0 to |groups|
      invariant |r| == Before(groups, g) <= Rows(groups)
      invariant forall i :: 0 <= i < |r| ==> r[i] == vs[GroupOf(groups, i)]
    {
      BeforeGrows(groups, g + 1, |groups|);
      for k := 0 to groups[g]
        invariant |r| == Before(groups, g) + k
        invariant forall i :: 0 <= i < |r| ==> r[i] == vs[GroupOf(groups, i)]
      {
        GroupUnique(groups, |r|, g);
        r := r + [vs[g]];
      }
    }
  }

  /** RANGE UNBOUNDED PRECEDING .. CURRENT ROW: each group is stepped, then valued once for all its rows. */
  method DenseRank(groups: seq<nat>) returns (r: seq<nat>)
    requires Partition(groups)
    ensures |r| == Rows(groups) && forall i :: 0 <= i < |r| ==> r[i] == DenseRankOf(groups, i)
  {
    var f := new DenseRankState();
    var vs := [];
    for g := 0 to |groups|
      invariant fresh(f) && f.nTotal == g
      invariant |vs| == g && forall h :: 0 <= h < g ==> vs[h] == h + 1
    {
      for k := 0 to groups[g]
        invariant f.nTotal == g && (k > 0 ==> f.nStep == 1)
      {
        f.Step();
      }
      var v := f.Done();
      vs := vs + [v];
    }
    r := Spread(groups, vs);
  }

  lemma GroupUnique(groups: seq<nat>, i: nat, g: nat)
    requires g < |groups| && Before(groups, g) <= i < Before(groups, g + 1) <= Rows(groups)
    ensures i < Rows(groups) && GroupOf(groups, i) == g
  {
    var h := GroupOf(groups, i);
    if h < g {
      BeforeGrows(groups, h + 1, g);
    } else if g < h {
      BeforeGrows(groups, g + 1, h);
    }
  }

  // ----- PERCENT_RANK and CUME_DIST -----

  /** The counters both functions keep: rows stepped, and rows inverted since. */
  class DistributionState {
    var nStep: nat
    var nTotal: nat

    constructor ()
      ensures nStep == 0 && nTotal == 0
    {
      nStep, nTotal := 0, 0;
    }

    method Step()
      modifies this
      ensures nTotal == old(nTotal) + 1 && nStep == old(nStep)
    {
      nTotal := nTotal + 1;
    }

    method Inverse()
      modifies this
      ensures nStep == old(nStep) + 1 && nTotal == old(nTotal)
    {
      nStep := nStep + 1;
    }

    method PercentRankDone() returns (r: real)
      ensures r == if nTotal > 1 then nStep as real / (nTotal - 1) as real else 0.0
    {
      if nTotal > 1 {
        return nStep as real / (nTotal - 1) as real;
      }
      return 0.0;
    }

    method CumeDistDone() returns (r: real)
      requires nTotal > 0
      ensures r == nStep as real / nTotal as real
    {
      return nStep as real / nTotal as real;
    }
  }

  method StepAll(f: DistributionState, n: nat)
    modifies f
    ensures f.nTotal == old(f.nTotal) + n && f.nStep == old(f.nStep)
  {
    for k := 0 to n
      invariant f.nTotal == old(f.nTotal) + k && f.nStep == old(f.nStep)
    {
      f.Step();
    }
  }

  method InverseAll(f: DistributionState, n: nat)
    modifies f
    ensures f.nStep == old(f.nStep) + n && f.nTotal == old(f.nTotal)
  {
    for k := 0 to n
      invariant f.nStep == old(f.nStep) + k && f.nTotal == old(f.nTotal)
    {
      f.Inverse();
    }
  }

  function PercentRankFor(groups: seq<nat>, g: nat): real
    requires g < |groups|
  {
    if Rows(groups) > 1 then Before(groups, g) as real / (Rows(groups) - 1) as real else 0.0
  }

  function CumeDistFor(groups: seq<nat>, g: nat): real
    requires g < |groups| && Rows(groups) > 0
  {
    Before(groups, g + 1) as real / Rows(groups) as real
  }

  lemma PercentRankIs(groups: seq<nat>, i: nat)
    requires i < Rows(groups)
    ensures PercentRankOf(groups, i) == PercentRankFor(groups, GroupOf(groups, i))
  {
  }

  /** GROUPS CURRENT ROW .. UNBOUNDED FOLLOWING: the whole partition is stepped, and earlier groups inverted. */
  method PercentRank(groups: seq<nat>) returns (r: seq<real>)
    requires Partition(groups)
    ensures |r| == Rows(groups) && forall i :: 0 <= i < |r| ==> r[i] == PercentRankOf(groups, i)
  {
    var f := new DistributionState();
    StepAll(f, Rows(groups));
    var vs := [];
    for g := 0 to |groups|
      invariant fresh(f) && f.nTotal == Rows(groups) && f.nStep == Before(groups, g)
      invariant |vs| == g && forall h :: 0 <= h < g ==> vs[h] == PercentRankFor(groups, h)
    {
      var v := f.PercentRankDone();
      vs := vs + [v];
      InverseAll(f, groups[g]);
    }
    r := Spread(groups, vs);
    forall i | 0 <= i < |r|
      ensures r[i] == PercentRankOf(groups, i)
    {
      PercentRankIs(groups, i);
    }
  }

  /** GROUPS 1 FOLLOWING .. UNBOUNDED FOLLOWING: the row's own group has been inverted too. */
  method CumeDist(groups: seq<nat>) returns (r: seq<real>)
    requires Partition(groups)
    ensures |r| == Rows(groups) && forall i :: 0 <= i < |r| ==> r[i] == CumeDistOf(groups, i)
  {
    var f := new DistributionState();
    StepAll(f, Rows(groups));
    var vs := [];
    for g := 0 to |groups|
      invariant fresh(f) && f.nTotal == Rows(groups) && f.nStep == Before(groups, g)
      invariant |vs| == g && (g > 0 ==> Rows(groups) > 0)
      invariant forall h :: 0 <= h < g ==> vs[h] == CumeDistFor(groups, h)
    {
      BeforeGrows(groups, g, g + 1);
      BeforeGrows(groups, g + 1, |groups|);
      InverseAll(f, groups[g]);
      var v := f.CumeDistDone();
      vs := vs + [v];
    }
    r := Spread(groups, vs);
  }

  /** The ranks of peers are equal, and the next group's rank is the number of rows so far plus one. */
  lemma RanksFollowGroups(groups: seq<nat>, i: nat, j: nat)
    requires Partition(groups) && i <= j < Rows(groups)
    ensures RankOf(groups, i) == RankOf(groups, j) <==> DenseRankOf(groups, i) == DenseRankOf(groups, j)
    ensures RankOf(groups, i) <= RankOf(groups, j) && DenseRankOf(groups, i) <= RankOf(groups, i) <= i + 1
    ensures 0.0 <= PercentRankOf(groups, i) <= 1.0 && 0.0 < CumeDistOf(groups, i) <= 1.0
  {
    var g, h := GroupOf(groups, i), GroupOf(groups, j);
    if h < g {
      BeforeGrows(groups, h + 1, g);
    }
    BeforeGrows(groups, g, h);
    GroupsAreRows(groups, g);
    BeforeGrows(groups, g + 1, |groups|);
    if Rows(groups) > 1 {
      Share(RankOf(groups, i) - 1, Rows(groups) - 1);
    }
    Share(Before(groups, g + 1), Rows(groups));
  }

  lemma Share(n: nat, d: nat)
    requires n <= d && d > 0
    ensures 0.0 <= n as real / d as real <= 1.0 && (n > 0 ==> n as real / d as real > 0.0)
  {
  }

  lemma {:induction false} GroupsAreRows(groups: seq<nat>, g: nat)
    requires Partition(groups) && g <= |groups|
    ensures g <= Before(groups, g)
  {
    if g > 0 {
      GroupsAreRows(groups, g - 1);
    }
  }

  // ----- NTILE -----

  class NtileState {
    const nParam: nat
    var nTotal: nat
    var iRow: nat

    constructor (n: nat)
      ensures nParam == n && nTotal == 0 && iRow == 0
    {
      nParam, nTotal, iRow := n, 0, 0;
    }

    method Step()
      modifies this
      ensures nTotal == old(nTotal) + 1 && iRow == old(iRow)
    {
      nTotal := nTotal + 1;
    }

    method Inverse()
      modifies this
      ensures iRow == old(iRow) + 1 && nTotal == old(nTotal)
    {
      iRow := iRow + 1;
    }

    /** The row's bucket is the one whose rows contain it, and the internal assertion never fails. */
    method Done() returns (r: Result<nat>)
      requires nParam > 0 && iRow < nTotal
      ensures r.Ok? && InBucket(nTotal, nParam, iRow, r.value)
    {
      hide StartOf;
      var nSize := nTotal / nParam;
      Division(nTotal, nParam);
      if nSize == 0 {
        TinyBucket(nParam, nTotal % nParam, iRow);
        return Ok(iRow + 1);
      }
      r := BucketAmong(nTotal, nParam, iRow, nSize, nTotal - nParam * nSize);
    }
  }

  /** The bucket among nLarge buckets of nSize + 1 rows followed by buckets of nSize. */
  method BucketAmong(nTotal: nat, nParam: nat, iRow: nat, nSize: nat, nLarge: nat) returns (r: Result<nat>)
    requires 0 < nSize && nLarge < nParam && nTotal == nParam * nSize + nLarge && iRow < nTotal
    ensures r.Ok? && 1 <= r.value <= nParam
    ensures StartOf(nSize, nLarge, r.value) <= iRow < StartOf(nSize, nLarge, r.value + 1)
  {
    hide StartOf;
    var iSmall := nLarge * (nSize + 1);
    AnyBucket(nParam, nSize, nLarge, iRow, iSmall);
    if iSmall + (nParam - nLarge) * nSize != nTotal {
      return Err("assertion failed");
    }
    if iRow < iSmall {
      return Ok(1 + iRow / (nSize + 1));
    } else {
      return Ok(1 + nLarge + (iRow - iSmall) / nSize);
    }
  }

  lemma Division(n: nat, d: nat)
    requires d > 0
    ensures n == d * (n / d) + n % d && n % d < d && n - d * (n / d) == n % d
  {
  }

  /** The first row of bucket b, counting from 1, when the first r buckets have q + 1 rows and the others q. */
  function StartOf(q: nat, r: nat, b: nat): nat
    requires b > 0
  {
    (b - 1) * q + (if b - 1 <= r then b - 1 else r)
  }

  /** The first N % n buckets hold one row more than the others. */
  function BucketStart(rows: nat, n: nat, b: nat): nat
    requires n > 0 && b > 0
  {
    StartOf(rows / n, rows % n, b)
  }

  ghost predicate InBucket(rows: nat, n: nat, i: nat, b: nat)
    requires n > 0
  {
    1 <= b <= n && BucketStart(rows, n, b) <= i < BucketStart(rows, n, b + 1)
  }

  lemma StartStep(q: nat, r: nat, b: nat)
    requires b >= 1
    ensures StartOf(q, r, b + 1) - StartOf(q, r, b) == q + (if b <= r then 1 else 0)
  {
    assert b * q == (b - 1) * q + q;
  }

  /** Buckets start where the one before ends; sizes differ by at most one, larger first; all rows are covered. */
  lemma BucketSizes(rows: nat, n: nat, b: nat)
    requires 1 <= b <= n
    ensures BucketStart(rows, n, 1) == 0 && BucketStart(rows, n, n + 1) == rows
    ensures BucketStart(rows, n, b + 1) - BucketStart(rows, n, b) == rows / n + (if b <= rows % n then 1 else 0)
  {
    Division(rows, n);
    StartStep(rows / n, rows % n, b);
  }

  lemma MulMonotone(a: nat, b: nat, c: nat)
    ensures a <= b ==> a * c <= b * c
  {
  }

  lemma TinyBucket(n: nat, r: nat, i: nat)
    requires i < r < n
    ensures StartOf(0, r, i + 1) == i && StartOf(0, r, i + 2) == i + 1
  {
  }

  lemma LargeBucket(n: nat, q: nat, r: nat, i: nat)
    requires r < n && i < r * (q + 1)
    ensures
      var k := i / (q + 1);
      k < r && StartOf(q, r, 1 + k) <= i < StartOf(q, r, 2 + k)
  {
    var k := i / (q + 1);
    Division(i, q + 1);
    MulMonotone(r, k, q + 1);
    assert (q + 1) * k == k * q + k;
    assert (k + 1) * q == k * q + q;
  }

  lemma SmallBucket(n: nat, q: nat, r: nat, i: nat)
    requires r < n && q > 0 && i < (n - r) * q
    ensures
      var k := i / q;
      k < n - r && StartOf(q, r, 1 + r + k) <= i + r * (q + 1) < StartOf(q, r, 2 + r + k)
  {
    var k := i / q;
    Division(i, q);
    MulMonotone(n - r, k, q);
    assert (r + k) * q == r * q + k * q && (r + k + 1) * q == r * q + k * q + q && r * (q + 1) == r * q + r;
  }

  lemma AnyBucket(n: nat, q: nat, r: int, i: nat, small: int)
    requires 0 <= r < n && q > 0 && i < n * q + r && small == r * (q + 1)
    ensures small + (n - r) * q == n * q + r
    ensures i < small ==>
      var b := 1 + i / (q + 1);
      b <= n && StartOf(q, r, b) <= i < StartOf(q, r, b + 1)
    ensures i >= small ==>
      var b := 1 + r + (i - small) / q;
      1 <= b <= n && StartOf(q, r, b) <= i < StartOf(q, r, b + 1)
  {
    assert r * (q + 1) == r * q + r && (n - r) * q == n * q - r * q;
    if i < small {
      LargeBucket(n, q, r, i);
    } else {
      SmallBucket(n, q, r, i - small);
    }
  }

  method ParseNtile(arg: Option<int>) returns (r: Result<nat>)
    ensures r.Ok? <==> arg.Some? && arg.value > 0
    ensures r.Ok? ==> r.value == arg.value
  {
    if arg.None? {
      return Err("constant integer expression must be not null value");
    }
    if arg.value <= 0 {
      return Err("constant integer expression must be positive value");
    }
    return Ok(arg.value);
  }

  /** The bucket numbers of a partition: they start at 1, never decrease and rise by at most 1. */
  predicate Buckets(r: seq<nat>, n: nat) {
    && (r != [] ==> r[0] == 1)
    && (forall i :: 0 <= i < |r| ==> 1 <= r[i] <= n)
    && forall i :: 0 < i < |r| ==> r[i - 1] <= r[i] <= r[i - 1] + 1
  }

  /** ROWS CURRENT ROW .. UNBOUNDED FOLLOWING: all rows are stepped, and the earlier ones inverted. */
  method Ntile(rows: nat, n: nat) returns (r: seq<nat>)
    requires n > 0
    ensures |r| == rows && Buckets(r, n)
    ensures forall i, b :: 0 <= i < rows && 1 <= b <= n ==> (r[i] == b <==> InBucket(rows, n, i, b))
  {
    var f := new NtileState(n);
    for k := 0 to rows
      invariant fresh(f) && f.nTotal == k && f.iRow == 0
    {
      f.Step();
    }
    r := [];
    for i := 0 to rows
      invariant fresh(f) && f.nTotal == rows && f.iRow == i
      invariant |r| == i && forall k :: 0 <= k < i ==> InBucket(rows, n, k, r[k])
    {
      var v := f.Done();
      r := r + [v.value];
      f.Inverse();
    }
    BucketsFromStarts(r, rows, n);
    forall i, b | 0 <= i < rows && 1 <= b <= n
      ensures r[i] == b <==> InBucket(rows, n, i, b)
    {
      BucketUnique(rows, n, i, r[i], b);
    }
  }

  lemma {:induction false} StartsGrow(rows: nat, n: nat, b: nat, c: nat)
    requires n > 0 && 1 <= b <= c <= n + 1
    ensures BucketStart(rows, n, b) <= BucketStart(rows, n, c)
    decreases c - b
  {
    if b < c {
      BucketSizes(rows, n, b);
      StartsGrow(rows, n, b + 1, c);
    }
  }

  lemma BucketUnique(rows: nat, n: nat, i: nat, b: nat, c: nat)
    requires n > 0 && InBucket(rows, n, i, b)
    requires 1 <= c <= n
    ensures InBucket(rows, n, i, c) <==> b == c
  {
    if b < c {
      StartsGrow(rows, n, b + 1, c);
    } else if c < b {
      StartsGrow(rows, n, c + 1, b);
    }
  }

  lemma BucketsFromStarts(r: seq<nat>, rows: nat, n: nat)
    requires n > 0 && |r| == rows && forall i :: 0 <= i < rows ==> InBucket(rows, n, i, r[i])
    ensures Buckets(r, n)
  {
    if r != [] {
      if r[0] > 1 {
        BucketSizes(rows, n, 1);
        StartsGrow(rows, n, 2, r[0]);
      }
    }
    forall i | 0 < i < |r|
      ensures r[i - 1] <= r[i] <= r[i - 1] + 1
    {
      NextBucket(rows, n, i, r[i - 1], r[i]);
    }
  }

  lemma NextBucket(rows: nat, n: nat, i: nat, b: nat, c: nat)
    requires n > 0 && 0 < i < rows && InBucket(rows, n, i - 1, b) && InBucket(rows, n, i, c)
    ensures b <= c <= b + 1
  {
    if c < b {
      StartsGrow(rows, n, c + 1, b);
    } else if b + 1 < c {
      StartsGrow(rows, n, b + 2, c);
      BucketSizes(rows, n, b + 1);
    }
  }

  lemma ProductPositive(a: nat, b: nat)
    requires a * b > 0
    ensures b > 0
  {
  }

  /** With at most as many buckets as rows, every bucket has a row. */
  lemma EveryBucketUsed(rows: nat, n: nat, b: nat)
    requires 1 <= b <= n <= rows
    ensures InBucket(rows, n, BucketStart(rows, n, b), b)
  {
    BucketSizes(rows, n, b);
    Division(rows, n);
    ProductPositive(n, rows / n);
  }
}
