/**
 Lines of steps: a command (interval, count, add) makes `count` steps, the k-th of them
 `interval * k + add * k * (k - 1) / 2` ticks after the last step before it.

 `CompressBisectAdd` searches for a command that stays inside the window of every step it
 covers.  The search is stated over exact integers.
 */
module StepLine {
  const MIN_ADD := -0x8000
  const MAX_ADD := 0x7fff
  const MAX_COUNT := 65535
  const QUADRATIC_DEV := 11

  datatype StepMove = StepMove(interval: int, count: int, add: int)

  // ----- division as in C, and the two roundings built on it -----

  function DivC(n: int, d: int): int
    requires d > 0
  {
    if n >= 0 then n / d else -((-n) / d)
  }

  function IdivUp(n: int, d: int): (r: int)
    requires d > 0
    ensures (r - 1) * d < n <= r * d
  {
    if n >= 0 then DivC(n + d - 1, d) else DivC(n, d)
  }

  function IdivDown(n: int, d: int): (r: int)
    requires d > 0
    ensures r * d <= n < (r + 1) * d
  {
    if n >= 0 then DivC(n, d) else DivC(n - d + 1, d)
  }

  // ----- windows -----

  ghost predicate Rises(pts: seq<int>, i: nat)
    requires i < |pts|
  {
    (if i > 0 then pts[i-1] else 0) < pts[i]
  }

  /** Step clocks relative to the last step, strictly increasing. */
  ghost predicate Increasing(pts: seq<int>) {
    forall i :: 0 <= i < |pts| ==> Rises(pts, i)
  }

  lemma {:induction false} Ordered(pts: seq<int>, i: nat, j: nat)
    requires Increasing(pts) && i <= j < |pts|
    ensures 0 < pts[i] <= pts[j]
    ensures i < j ==> pts[i] < pts[j]
    decreases j
  {
    assert Rises(pts, j);
    if i < j { Ordered(pts, i, j - 1); }
    else if j > 0 { Ordered(pts, j - 1, j - 1); }
  }

  /** Allowed earliness of step k, counted from 1. */
  function Slack(pts: seq<int>, maxError: nat, k: nat): int
    requires 1 <= k <= |pts|
  {
    var gap := pts[k-1] - (if k > 1 then pts[k-2] else 0);
    if gap / 2 > maxError then maxError else gap / 2
  }

  function MinP(pts: seq<int>, maxError: nat, k: nat): int
    requires 1 <= k <= |pts|
  {
    pts[k-1] - Slack(pts, maxError, k)
  }

  function MaxP(pts: seq<int>, k: nat): int
    requires 1 <= k <= |pts|
  {
    pts[k-1]
  }

  /** The window of a step: not late, at most the error early, and at most half the way back to the step before. */
  lemma WindowMeans(pts: seq<int>, maxError: nat, k: nat, x: int)
    requires Increasing(pts) && 1 <= k <= |pts|
    ensures var p, prev := pts[k-1], if k > 1 then pts[k-2] else 0;
            MinP(pts, maxError, k) <= x <= MaxP(pts, k) <==> p - maxError <= x <= p && 2 * (p - x) <= p - prev
  {
    assert Rises(pts, k - 1);
  }

  // ----- lines -----

  function Tri(k: int): int {
    k * (k - 1) / 2
  }

  function Line(interval: int, add: int, k: int): int {
    interval * k + add * Tri(k)
  }

  ghost predicate FitsAt(pts: seq<int>, maxError: nat, interval: int, add: int, k: nat)
    requires 1 <= k <= |pts|
  {
    MinP(pts, maxError, k) <= Line(interval, add, k) <= MaxP(pts, k)
  }

  ghost predicate Fits(pts: seq<int>, maxError: nat, interval: int, add: int, count: int) {
    count <= |pts| && forall k :: 1 <= k <= count ==> FitsAt(pts, maxError, interval, add, k)
  }

  ghost predicate Good(pts: seq<int>, maxError: nat, m: StepMove) {
    && 1 <= m.count <= MAX_COUNT && m.count <= |pts|
    && MIN_ADD <= m.add <= MAX_ADD && 1 <= m.interval
    && Fits(pts, maxError, m.interval, m.add, m.count)
  }

  /** No constant interval covers more than c of the first `last` steps. */
  ghost predicate NoLongerConstant(pts: seq<int>, maxError: nat, last: int, c: int) {
    forall i, n :: c < n <= last ==> !Fits(pts, maxError, i, 0, n)
  }

  // ----- one value of add -----

  lemma MulMono(x: int, y: int, n: int)
    requires x <= y && 0 <= n
    ensures x * n <= y * n
  {
  }

  lemma MulOrder(x: int, y: int, n: int)
    requires 0 < n && x * n < y * n
    ensures x < y
  {
    if y <= x { MulMono(y, x, n); }
  }

  /** Bounds lo and hi keep every interval between them inside the first `count` windows. */
  ghost predicate Inside(pts: seq<int>, maxError: nat, add: int, count: int, lo: int, hi: int) {
    && count <= |pts|
    && forall k :: 1 <= k <= count ==>
         MinP(pts, maxError, k) <= Line(lo, add, k) && Line(hi, add, k) <= MaxP(pts, k)
  }

  lemma InsideShrinks(pts: seq<int>, maxError: nat, add: int, count: int, lo: int, hi: int, lo': int, hi': int)
    requires Inside(pts, maxError, add, count, lo, hi) && lo <= lo' && hi' <= hi
    ensures Inside(pts, maxError, add, count, lo', hi')
  {
    forall k | 1 <= k <= count
      ensures MinP(pts, maxError, k) <= Line(lo', add, k) && Line(hi', add, k) <= MaxP(pts, k)
    {
      MulMono(lo, lo', k);
      MulMono(hi', hi, k);
    }
  }

  lemma InsideFits(pts: seq<int>, maxError: nat, add: int, count: int, lo: int, hi: int, x: int)
    requires Inside(pts, maxError, add, count, lo, hi) && lo <= x <= hi
    ensures Fits(pts, maxError, x, add, count)
  {
    InsideShrinks(pts, maxError, add, count, lo, hi, x, x);
    forall k | 1 <= k <= count ensures FitsAt(pts, maxError, x, add, k) {
      assert MinP(pts, maxError, k) <= Line(x, add, k) && Line(x, add, k) <= MaxP(pts, k);
    }
  }

  /** Raises the lower bound just enough for step n. */
  function RaiseMin(lo: int, n: int, target: int): (r: int)
    requires 0 < n
    ensures lo <= r && target <= r * n
  {
    if lo * n < target then
      var r := IdivUp(target, n);
      MulOrder(lo, r, n);
      r
    else lo
  }

  function LowerMax(hi: int, n: int, target: int): (r: int)
    requires 0 < n
    ensures r <= hi && r * n <= target
  {
    if hi * n > target then
      var r := IdivDown(target, n);
      MulOrder(r, hi, n);
      r
    else hi
  }

  /** The new bounds lose no interval that fits. */
  lemma BoundsComplete(x: int, lo: int, hi: int, n: int, minTarget: int, maxTarget: int)
    requires 0 < n && lo <= x <= hi && minTarget <= x * n <= maxTarget
    ensures RaiseMin(lo, n, minTarget) <= x <= LowerMax(hi, n, maxTarget)
  {
    var r := RaiseMin(lo, n, minTarget);
    if lo * n < minTarget { MulOrder(r - 1, x, n); }
    var s := LowerMax(hi, n, maxTarget);
    if hi * n > maxTarget { MulOrder(x, s + 1, n); }
  }
}
