/** The row partitioner shared by the three readers: how many rows each process owns
    and where its block starts (src/matrixReader.cpp:158-201, src/rhsReader.cpp:151-185,
    src/initialSolutionReader.cpp:152-186 hold three identical copies). */
module Partition {
  import opened CppInt

  /** Sum of a sequence of counts. */
  function Sum(s: seq<int>): int
  {
    if |s| == 0 then 0 else s[0] + Sum(s[1..])
  }

  /** Offset of rank `r`: the number of rows owned by the ranks below it. */
  function Start(counts: seq<int>, r: nat): int
    requires r <= |counts|
  {
    Sum(counts[..r])
  }

  /** Rows owned by `rank`: the truncated quotient, plus one for each of the first
      `nRows % nProcessors` ranks. A negative `nRows` leaves a non-positive C++
      remainder, so then no rank gets the extra row. */
  function RowCount(nRows: int, nProcessors: int, rank: int): int
    requires nProcessors > 0
  {
    Quot(nRows, nProcessors) + (if rank < Rem(nRows, nProcessors) then 1 else 0)
  }

  /** The whole vector of per-rank counts. */
  function RowCounts(nRows: int, nProcessors: int): seq<int>
    requires nProcessors > 0
  {
    seq(nProcessors, r => RowCount(nRows, nProcessors, r))
  }

  predicate NonNegative(counts: seq<int>)
  {
    forall i :: 0 <= i < |counts| ==> counts[i] >= 0
  }

  /** Rank `r`'s block, scaled by `factor` physical lines per row, contains line `x`. */
  predicate Covers(counts: seq<int>, factor: int, r: nat, x: int)
    requires r < |counts|
  {
    factor * Start(counts, r) <= x < factor * (Start(counts, r) + counts[r])
  }

  /** The count loop: every entry starts at the quotient and, while the remainder
      lasts, takes one more row and uses one unit of it up. */
  method ComputeRowsPerProc(nRows: int, nProcessors: int) returns (rows: seq<int>)
    requires nProcessors > 0
    ensures rows == RowCounts(nRows, nProcessors)
  {
    var a := new int[nProcessors](_ => 0);
    var division := Quot(nRows, nProcessors);
    var reminder := Rem(nRows, nProcessors);
    ghost var rem := reminder;
    for i := 0 to a.Length
      invariant reminder == if rem <= 0 then rem else if i < rem then rem - i else 0
      invariant forall k :: 0 <= k < i ==> a[k] == RowCount(nRows, nProcessors, k)
    {
      a[i] := division;
      if reminder > 0 {
        a[i] := a[i] + 1;
        reminder := reminder - 1;
      }
    }
    rows := a[..];
  }

  /** The offset loop: entry `p` accumulates `factor` times the count of every lower
      rank (`factor` is 2 for the matrix body, whose rows take two lines, and 1 for
      the vector bodies). */
  method ComputeStartPerProc(nProcessors: int, procRows: seq<int>, factor: int) returns (startLines: seq<int>)
    requires 0 < nProcessors <= |procRows|
    ensures |startLines| == nProcessors
    ensures forall p :: 0 <= p < nProcessors ==> startLines[p] == factor * Start(procRows, p)
  {
    var a := new int[nProcessors](_ => 0);
    for p := 1 to a.Length
      invariant a[0] == 0
      invariant forall q :: 0 <= q < p ==> a[q] == factor * Start(procRows, q)
      invariant forall q :: p <= q < a.Length ==> a[q] == 0
    {
      for pp := 0 to p
        invariant a[0] == 0
        invariant a[p] == factor * Start(procRows, pp)
        invariant forall q :: 0 <= q < p ==> a[q] == factor * Start(procRows, q)
        invariant forall q :: p < q < a.Length ==> a[q] == 0
      {
        StartStep(procRows, pp);
        a[p] := a[p] + factor * procRows[pp];
      }
    }
    assert a[0] == factor * Start(procRows, 0);
    startLines := a[..];
  }

  lemma {:induction false} SumAppend(s: seq<int>, x: int)
    ensures Sum(s + [x]) == Sum(s) + x
  {
    if |s| > 0 {
      assert (s + [x])[1..] == s[1..] + [x];
      SumAppend(s[1..], x);
    } else {
      assert s + [x] == [x];
    }
  }

  /** Consecutive offsets differ by the lower rank's count: the blocks are contiguous. */
  lemma StartStep(counts: seq<int>, r: nat)
    requires r < |counts|
    ensures Start(counts, r + 1) == Start(counts, r) + counts[r]
  {
    assert counts[..r + 1] == counts[..r] + [counts[r]];
    SumAppend(counts[..r], counts[r]);
  }

  /** Closed form of the offsets: `r` full quotients plus one extra row for each of the
      lower ranks that received one. */
  lemma {:induction false} StartClosedForm(nRows: int, nProcessors: int, r: nat)
    requires nRows >= 0 && nProcessors > 0 && r <= nProcessors
    ensures Start(RowCounts(nRows, nProcessors), r)
         == r * (nRows / nProcessors) + (if r < nRows % nProcessors then r else nRows % nProcessors)
  {
    if r > 0 {
      StartClosedForm(nRows, nProcessors, r - 1);
      StartStep(RowCounts(nRows, nProcessors), r - 1);
    }
  }

  /** The counts cover every row: they sum to `nRows`. */
  lemma CountsSumToRows(nRows: int, nProcessors: int)
    requires nRows >= 0 && nProcessors > 0
    ensures Sum(RowCounts(nRows, nProcessors)) == nRows
    ensures Start(RowCounts(nRows, nProcessors), nProcessors) == nRows
  {
    var counts := RowCounts(nRows, nProcessors);
    StartClosedForm(nRows, nProcessors, nProcessors);
    assert counts[..nProcessors] == counts;
  }

  /** The loads are balanced: every count is the quotient or one more, the extra rows go
      to the lowest ranks (rank `r` gets one iff `r < nRows % nProcessors`), so the
      counts never increase with the rank and no two differ by more than one. */
  lemma CountsBalanced(nRows: int, nProcessors: int)
    requires nRows >= 0 && nProcessors > 0
    ensures forall r :: 0 <= r < nProcessors ==>
      (RowCounts(nRows, nProcessors)[r] == nRows / nProcessors + 1 <==> r < nRows % nProcessors)
    ensures forall r :: 0 <= r < nProcessors ==>
      nRows / nProcessors <= RowCounts(nRows, nProcessors)[r] <= nRows / nProcessors + 1
    ensures forall r1, r2 :: 0 <= r1 <= r2 < nProcessors ==>
      RowCounts(nRows, nProcessors)[r2] <= RowCounts(nRows, nProcessors)[r1] <= RowCounts(nRows, nProcessors)[r2] + 1
  {
  }

  lemma CountsNonNegative(nRows: int, nProcessors: int)
    requires nRows >= 0 && nProcessors > 0
    ensures NonNegative(RowCounts(nRows, nProcessors))
  {
    var counts := RowCounts(nRows, nProcessors);
    forall i | 0 <= i < |counts| ensures counts[i] >= 0 {
      RowCountNonNegative(nRows, nProcessors, i);
    }
  }

  lemma RowCountNonNegative(nRows: int, nProcessors: int, rank: int)
    requires nRows >= 0 && nProcessors > 0
    ensures RowCount(nRows, nProcessors, rank) >= 0
  {
  }

  /** Offsets never decrease when every count is non-negative. */
  lemma {:induction false} StartMonotone(counts: seq<int>, r1: nat, r2: nat)
    requires NonNegative(counts) && r1 <= r2 <= |counts|
    ensures Start(counts, r1) <= Start(counts, r2)
  {
    if r1 < r2 {
      StartMonotone(counts, r1, r2 - 1);
      StartStep(counts, r2 - 1);
    }
  }

  /** Each rank's block lies within `[0, nRows)`. */
  lemma BlockWithinRows(nRows: int, nProcessors: int, rank: nat)
    requires nRows >= 0 && nProcessors > 0 && rank < nProcessors
    ensures 0 <= Start(RowCounts(nRows, nProcessors), rank)
    ensures Start(RowCounts(nRows, nProcessors), rank) + RowCount(nRows, nProcessors, rank) <= nRows
  {
    var counts := RowCounts(nRows, nProcessors);
    CountsNonNegative(nRows, nProcessors);
    CountsSumToRows(nRows, nProcessors);
    StartMonotone(counts, 0, rank);
    StartStep(counts, rank);
    StartMonotone(counts, rank + 1, nProcessors);
  }

  /** Every line in `[0, factor * Sum(counts))` lies in some rank's block. */
  lemma {:induction false} OwnerExists(counts: seq<int>, factor: int, x: int) returns (r: nat)
    requires NonNegative(counts) && factor > 0
    requires 0 <= x < factor * Sum(counts)
    ensures r < |counts| && Covers(counts, factor, r, x)
  {
    var n := |counts|;
    assert counts[..n] == counts;
    var init := counts[..n - 1];
    StartStep(counts, n - 1);
    if x < factor * Start(counts, n - 1) {
      assert init[..n - 1] == init;
      assert Sum(init) == Start(counts, n - 1);
      r := OwnerExists(init, factor, x);
      assert init[..r] == counts[..r];
    } else {
      r := n - 1;
    }
  }

  /** No line lies in two ranks' blocks. */
  lemma OwnerUnique(counts: seq<int>, factor: int, x: int, r1: nat, r2: nat)
    requires NonNegative(counts) && factor > 0
    requires r1 < |counts| && r2 < |counts|
    requires Covers(counts, factor, r1, x) && Covers(counts, factor, r2, x)
    ensures r1 == r2
  {
    if r1 < r2 {
      StartStep(counts, r1);
      StartMonotone(counts, r1 + 1, r2);
    } else if r2 < r1 {
      StartStep(counts, r2);
      StartMonotone(counts, r2 + 1, r1);
    }
  }

  /** The blocks are contiguous: the first starts at 0, each starts where the one below
      ends, and the last ends at `nRows`. */
  lemma BlocksContiguous(nRows: int, nProcessors: int)
    requires nRows >= 0 && nProcessors > 0
    ensures Start(RowCounts(nRows, nProcessors), 0) == 0
    ensures forall r :: 0 <= r < nProcessors - 1 ==>
      Start(RowCounts(nRows, nProcessors), r + 1) == Start(RowCounts(nRows, nProcessors), r) + RowCount(nRows, nProcessors, r)
    ensures Start(RowCounts(nRows, nProcessors), nProcessors - 1) + RowCount(nRows, nProcessors, nProcessors - 1) == nRows
  {
    var counts := RowCounts(nRows, nProcessors);
    CountsSumToRows(nRows, nProcessors);
    forall r | 0 <= r < nProcessors - 1
      ensures Start(counts, r + 1) == Start(counts, r) + RowCount(nRows, nProcessors, r)
    {
      StartStep(counts, r);
    }
    StartStep(counts, nProcessors - 1);
  }

  /** The blocks tile the body: every line `x` of `[0, factor * nRows)` belongs to exactly
      one rank's block. With `factor` 2 these are the matrix body's line ranges, with
      `factor` 1 the vector bodies'. */
  lemma PartitionTiles(nRows: int, nProcessors: int, factor: int, x: int) returns (owner: nat)
    requires nRows >= 0 && nProcessors > 0 && factor > 0
    requires 0 <= x < factor * nRows
    ensures owner < nProcessors && Covers(RowCounts(nRows, nProcessors), factor, owner, x)
    ensures forall r :: 0 <= r < nProcessors && Covers(RowCounts(nRows, nProcessors), factor, r, x) ==> r == owner
  {
    var counts := RowCounts(nRows, nProcessors);
    CountsSumToRows(nRows, nProcessors);
    CountsNonNegative(nRows, nProcessors);
    assert x < factor * Sum(counts);
    owner := OwnerExists(counts, factor, x);
    forall r | 0 <= r < nProcessors && Covers(counts, factor, r, x)
      ensures r == owner
    {
      OwnerUnique(counts, factor, x, r, owner);
    }
  }

  /** Ten rows over three processes: counts [4, 3, 3], row offsets [0, 4, 7] and matrix
      line offsets [0, 8, 14]. */
  lemma TenRowsOverThree()
    ensures RowCounts(10, 3) == [4, 3, 3]
    ensures Start(RowCounts(10, 3), 1) == 4 && Start(RowCounts(10, 3), 2) == 7
  {
    var counts := RowCounts(10, 3);
    assert counts == [4, 3, 3];
    StartStep(counts, 0);
    StartStep(counts, 1);
  }

  /** Ten rows over five processes: no remainder, counts [2, 2, 2, 2, 2], offsets 0, 2, 4, 6, 8. */
  lemma TenRowsOverFive()
    ensures RowCounts(10, 5) == [2, 2, 2, 2, 2]
    ensures forall r :: 0 <= r < 5 ==> Start(RowCounts(10, 5), r) == 2 * r
  {
    forall r | 0 <= r < 5
      ensures Start(RowCounts(10, 5), r) == 2 * r
    {
      StartClosedForm(10, 5, r);
    }
  }
}
