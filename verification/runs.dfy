/** Runs of consecutive integers in a strictly ascending list. Both the
    straight finder of the evaluator (`_straight_high`) and the
    straight-draw detector of the decision policy (`_has_straight_draw`)
    walk the sorted distinct ranks pairwise and count how long the current
    run of consecutive values is; this module states what such a walk
    computes. */
module Runs {
  import opened Wrappers

  predicate Ascending(u: seq<int>) {
    forall i, j :: 0 <= i < j < |u| ==> u[i] < u[j]
  }

  /** Every integer from `lo` to `hi` occurs in `u`. */
  predicate Covers(u: seq<int>, lo: int, hi: int) {
    forall j :: lo <= j <= hi ==> j in u
  }

  /** Covering survives adding values. */
  lemma CoversGrow(u: seq<int>, w: seq<int>, lo: int, hi: int)
    requires Covers(u, lo, hi)
    requires forall x :: x in u ==> x in w
    ensures Covers(w, lo, hi)
  {
  }

  /** Length of the run of consecutive values that ends at position `i`. */
  function RunLen(u: seq<int>, i: nat): (n: nat)
    requires i < |u|
    ensures 1 <= n <= i + 1
  {
    if i > 0 && u[i] - u[i - 1] == 1 then RunLen(u, i - 1) + 1 else 1
  }

  /** The run ending at `u[i]` is at least `k` long exactly when the `k`
      values up to `u[i]` all occur. */
  lemma {:induction false} RunLenCovers(u: seq<int>, i: nat, k: nat)
    requires Ascending(u) && i < |u| && k >= 1
    ensures RunLen(u, i) >= k <==> Covers(u, u[i] - k + 1, u[i])
    decreases i
  {
    if k == 1 {
      assert u[i] in u;
    } else {
      if RunLen(u, i) >= k {
        RunLenCovers(u, i - 1, k - 1);
        assert u[i - 1] == u[i] - 1;
        forall j | u[i] - k + 1 <= j <= u[i] ensures j in u {
          if j == u[i] { assert u[i] in u; }
        }
      }
      if Covers(u, u[i] - k + 1, u[i]) {
        assert u[i] - 1 in u;
        var m :| 0 <= m < |u| && u[m] == u[i] - 1;
        assert m == i - 1;
        RunLenCovers(u, i - 1, k - 1);
      }
    }
  }

  /** In an ascending list, a value occurring in it sits at one position. */
  lemma PositionOf(u: seq<int>, h: int) returns (m: nat)
    requires Ascending(u) && h in u
    ensures m < |u| && u[m] == h
  {
    m :| 0 <= m < |u| && u[m] == h;
  }

  /** The loop of `_straight_high` from the pair `(u[i-1], u[i])` on:
      `run` is the length of the current run, `best` the top of the latest
      run that reached five. */
  function StraightScan(u: seq<int>, i: nat, run: nat, best: Option<int>): Option<int>
    requires 1 <= i <= |u|
    decreases |u| - i
  {
    if i == |u| then best
    else if u[i] - u[i - 1] == 1 then
      StraightScan(u, i + 1, run + 1, if run + 1 >= 5 then Some(u[i]) else best)
    else
      StraightScan(u, i + 1, 1, best)
  }

  /** The value at the last position before `n` whose run reaches five. */
  function LastTop(u: seq<int>, n: nat): Option<int>
    requires n <= |u|
  {
    if n == 0 then None
    else if RunLen(u, n - 1) >= 5 then Some(u[n - 1])
    else LastTop(u, n - 1)
  }

  lemma {:induction false} StraightScanIsLastTop(u: seq<int>, i: nat)
    requires 1 <= i <= |u|
    ensures StraightScan(u, i, RunLen(u, i - 1), LastTop(u, i)) == LastTop(u, |u|)
    decreases |u| - i
  {
    if i < |u| {
      StraightScanIsLastTop(u, i + 1);
    }
  }

  /** The walk finds nothing exactly when no run before `n` reaches five. */
  lemma {:induction false} LastTopNone(u: seq<int>, n: nat)
    requires n <= |u|
    ensures LastTop(u, n).None? <==> forall m :: 0 <= m < n ==> RunLen(u, m) < 5
  {
    if n > 0 && RunLen(u, n - 1) < 5 {
      LastTopNone(u, n - 1);
    } else if n > 0 {
      assert !(RunLen(u, n - 1) < 5);
    }
  }

  /** What the walk finds is the value at the last position before `n`
      whose run reaches five. */
  lemma {:induction false} LastTopIndex(u: seq<int>, n: nat) returns (m: nat)
    requires n <= |u| && LastTop(u, n).Some?
    ensures m < n && u[m] == LastTop(u, n).value && RunLen(u, m) >= 5
    ensures forall m' :: m < m' < n ==> RunLen(u, m') < 5
  {
    if RunLen(u, n - 1) >= 5 {
      m := n - 1;
    } else {
      m := LastTopIndex(u, n - 1);
    }
  }

  /** The value the straight walk ends with is the top of a run of five,
      and no higher value of `u` tops one. */
  lemma LastTopIsHighestFive(u: seq<int>)
    requires Ascending(u)
    ensures LastTop(u, |u|).Some? ==>
              LastTop(u, |u|).value in u &&
              Covers(u, LastTop(u, |u|).value - 4, LastTop(u, |u|).value) &&
              forall h :: h in u && Covers(u, h - 4, h) ==> h <= LastTop(u, |u|).value
  {
    if LastTop(u, |u|).Some? {
      var top := LastTop(u, |u|).value;
      var m := LastTopIndex(u, |u|);
      RunLenCovers(u, m, 5);
      forall h | h in u && Covers(u, h - 4, h) ensures h <= top {
        NoLaterFive(u, m, h);
      }
    }
  }

  lemma NoLaterFive(u: seq<int>, m: nat, h: int)
    requires Ascending(u) && m < |u|
    requires forall m' :: m < m' < |u| ==> RunLen(u, m') < 5
    requires h in u && Covers(u, h - 4, h)
    ensures h <= u[m]
  {
    var p := PositionOf(u, h);
    RunLenCovers(u, p, 5);
  }

  /** When the walk finds nothing, no value of `u` tops a run of five. */
  lemma LastTopNoneNoFive(u: seq<int>)
    requires Ascending(u)
    ensures LastTop(u, |u|).None? ==> forall h :: h in u ==> !Covers(u, h - 4, h)
  {
    LastTopNone(u, |u|);
    if LastTop(u, |u|).None? {
      forall h | h in u ensures !Covers(u, h - 4, h) {
        var p := PositionOf(u, h);
        RunLenCovers(u, p, 5);
      }
    }
  }

  /** The whole walk of `_straight_high` over `u`: the top of the highest
      run of five, if there is one. */
  function StraightWalk(u: seq<int>): (best: Option<int>)
    requires Ascending(u)
    ensures best.Some? ==> best.value in u && Covers(u, best.value - 4, best.value)
    ensures best.Some? ==> forall h :: h in u && Covers(u, h - 4, h) ==> h <= best.value
    ensures best.None? ==> forall h :: h in u ==> !Covers(u, h - 4, h)
  {
    LastTopIsHighestFive(u);
    LastTopNoneNoFive(u);
    if |u| == 0 then None
    else
      StraightScanIsLastTop(u, 1);
      StraightScan(u, 1, 1, None)
  }

  /** The loop of `_has_straight_draw` from the pair `(u[i-1], u[i])` on:
      `best` is the longest run seen so far. */
  function DrawScan(u: seq<int>, i: nat, run: nat, best: nat): nat
    requires 1 <= i <= |u|
    decreases |u| - i
  {
    if i == |u| then best
    else if u[i] - u[i - 1] == 1 then
      DrawScan(u, i + 1, run + 1, if best >= run + 1 then best else run + 1)
    else
      DrawScan(u, i + 1, 1, best)
  }

  /** The longest run ending before position `n`. */
  function MaxRun(u: seq<int>, n: nat): (r: nat)
    requires 1 <= n <= |u|
    ensures forall m :: 0 <= m < n ==> RunLen(u, m) <= r
  {
    if n == 1 then RunLen(u, 0)
    else
      var prev := MaxRun(u, n - 1);
      if RunLen(u, n - 1) > prev then RunLen(u, n - 1) else prev
  }

  /** The longest run is the run at some position. */
  lemma {:induction false} MaxRunAttained(u: seq<int>, n: nat) returns (m: nat)
    requires 1 <= n <= |u|
    ensures m < n && RunLen(u, m) == MaxRun(u, n)
  {
    if n == 1 {
      m := 0;
    } else if RunLen(u, n - 1) > MaxRun(u, n - 1) {
      m := n - 1;
    } else {
      m := MaxRunAttained(u, n - 1);
    }
  }

  lemma {:induction false} DrawScanIsMaxRun(u: seq<int>, i: nat)
    requires 1 <= i <= |u|
    ensures DrawScan(u, i, RunLen(u, i - 1), MaxRun(u, i)) == MaxRun(u, |u|)
    decreases |u| - i
  {
    if i < |u| {
      DrawScanIsMaxRun(u, i + 1);
    }
  }

  /** Some `k` consecutive values occur in `u` exactly when the longest run
      is at least `k`. */
  lemma MaxRunCovers(u: seq<int>, k: nat)
    requires Ascending(u) && |u| >= 1 && k >= 1
    ensures MaxRun(u, |u|) >= k <==> exists h :: h in u && Covers(u, h - k + 1, h)
  {
    if MaxRun(u, |u|) >= k {
      var m := MaxRunAttained(u, |u|);
      RunLenCovers(u, m, k);
      assert u[m] in u;
    }
    if exists h :: h in u && Covers(u, h - k + 1, h) {
      var h :| h in u && Covers(u, h - k + 1, h);
      var p := PositionOf(u, h);
      RunLenCovers(u, p, k);
    }
  }
}
