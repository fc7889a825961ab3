/**
 Fixed-width arithmetic around a line of steps: the check of a finished line, the closed
 form for its last clock, and the range of the values met by the search.
 */
module StepCheck {
  import opened Word32
  import opened StepLine

  const CLOCK_DIFF_MAX := 0x3000_0000  // 3 << 28

  // ----- a line as a recurrence -----

  lemma TriStep(k: nat)
    ensures Tri(k + 1) == Tri(k) + k
  {
    assert (k + 1) * k == k * (k - 1) + 2 * k;
  }

  lemma LineStep(interval: int, add: int, k: nat)
    ensures Line(interval, add, k + 1) == Line(interval, add, k) + (interval + add * k)
  {
    TriStep(k);
    assert add * (Tri(k) + k) == add * Tri(k) + add * k;
  }

  /** Steps of a line that fits are apart. */
  lemma StepsApart(pts: seq<int>, maxError: nat, interval: int, add: int, count: int, k: nat)
    requires Increasing(pts) && Fits(pts, maxError, interval, add, count) && k < count
    ensures 1 <= interval + add * k
    ensures Line(interval, add, k) < Line(interval, add, k + 1)
  {
    LineStep(interval, add, k);
    assert FitsAt(pts, maxError, interval, add, k + 1) && Rises(pts, k);
    if k > 0 { assert FitsAt(pts, maxError, interval, add, k); } else { assert Line(interval, add, 0) == 0; }
  }

  /** The quadratic part of a line that fits never exceeds its end. */
  lemma QuadraticBounded(pts: seq<int>, maxError: nat, interval: int, add: int, count: int)
    requires Increasing(pts) && 1 <= count && Fits(pts, maxError, interval, add, count)
    ensures -pts[count-1] <= add * Tri(count) <= pts[count-1]
  {
    StepsApart(pts, maxError, interval, add, count, 0);
    StepsApart(pts, maxError, interval, add, count, count - 1);
    assert FitsAt(pts, maxError, interval, add, count);
    EndBoundsQuadratic(interval, add, count);
  }

  /** First and last gap being positive, the quadratic part is at most the whole. */
  lemma EndBoundsQuadratic(interval: int, add: int, count: int)
    requires 1 <= count && 1 <= interval && 1 <= interval + add * (count - 1)
    ensures -Line(interval, add, count) <= add * Tri(count) <= Line(interval, add, count)
  {
    var c, s := add * Tri(count), interval * count;
    MulMono(1, interval, count);
    MulMono(1, interval + add * (count - 1), count);
    TriTwice(count);
    assert (interval + add * (count - 1)) * count == s + (add * (count - 1)) * count;
    assert (add * (count - 1)) * count == add * (count * (count - 1)) == add * (2 * Tri(count)) == 2 * c;
  }

  lemma TriTwice(k: int)
    ensures 2 * Tri(k) == k * (k - 1)
  {
    var h := k / 2;
    if k % 2 == 0 {
      assert k * (k - 1) == 2 * (h * (k - 1));
    } else {
      assert k - 1 == 2 * h;
      assert k * (k - 1) == 2 * (k * h);
    }
  }

  // ----- check_line -----

  /** The points of a line and the gaps after them, as sequences. */
  ghost predicate Unrolled(m: StepMove, pos: seq<int>, gap: seq<int>) {
    && 0 <= m.count && |pos| == |gap| == m.count + 1
    && pos[0] == 0 && gap[0] == m.interval
    && forall k :: 0 <= k < m.count ==> UnrolledAt(m, pos, gap, k)
  }

  ghost predicate UnrolledAt(m: StepMove, pos: seq<int>, gap: seq<int>, k: nat)
    requires k + 1 < |pos| && k + 1 < |gap|
  {
    pos[k+1] == pos[k] + gap[k] && gap[k+1] == gap[k] + m.add
  }

  lemma Unroll(m: StepMove) returns (pos: seq<int>, gap: seq<int>)
    requires 0 <= m.count
    ensures Unrolled(m, pos, gap)
    ensures forall k :: 0 <= k <= m.count ==> pos[k] == Line(m.interval, m.add, k)
  {
    pos := seq(m.count + 1, k => Line(m.interval, m.add, k));
    gap := seq(m.count + 1, k => m.interval + m.add * k);
    forall k | 0 <= k < m.count ensures UnrolledAt(m, pos, gap, k) {
      LineStep(m.interval, m.add, k);
      assert m.add * (k + 1) == m.add * k + m.add;
    }
  }

  /** The first n points lie in their windows. */
  ghost predicate InWindows(pts: seq<int>, maxError: nat, pos: seq<int>, n: int) {
    n < |pos| && n <= |pts| && forall k :: 1 <= k <= n ==> MinP(pts, maxError, k) <= pos[k] <= MaxP(pts, k)
  }

  lemma NextWindow(pts: seq<int>, maxError: nat, pos: seq<int>, i: nat)
    requires Increasing(pts) && i < |pts| && InWindows(pts, maxError, pos, i) && pos[0] == 0
    ensures pos[i] < MinP(pts, maxError, i + 1) <= MaxP(pts, i + 1) == pts[i]
  {
    assert Rises(pts, i);
  }

  ghost predicate Bounded(pts: seq<int>) {
    Increasing(pts) && forall i :: 0 <= i < |pts| ==> pts[i] < CLOCK_DIFF_MAX
  }

  /** The loop of the check: 32-bit sums against the windows. */
  method ReplayInWindows(pts: seq<int>, maxError: nat, m: StepMove, ghost pos: seq<int>, ghost gap: seq<int>)
    returns (ok: bool)
    requires Bounded(pts) && 1 <= m.count <= |pts| && 0 <= m.interval < 0x8000_0000 && MIN_ADD <= m.add <= MAX_ADD
    requires Unrolled(m, pos, gap)
    ensures ok <==> InWindows(pts, maxError, pos, m.count)
  {
    hide Low, MinP, MaxP, InWindows, Increasing;
    var interval, p := m.interval, 0;
    var i := 0;
    WindowsNone(pts, maxError, pos, m.interval);
    while i < m.count
      invariant 0 <= i <= m.count
      invariant InWindows(pts, maxError, pos, i)
      invariant p == pos[i] && 0 <= p < CLOCK_DIFF_MAX
      invariant interval == Low(gap[i]) && -0x8000 <= gap[i] < 0x8000_8000
    {
      assert UnrolledAt(m, pos, gap, i);
      NextWindow(pts, maxError, pos, i);
      var minp, maxp := MinP(pts, maxError, i + 1), MaxP(pts, i + 1);
      WrapRejects(gap[i], p, minp, maxp);
      WindowsMore(pts, maxError, pos, i, m.count);
      LowAdds(gap[i], m.add);
      p := Low(p + interval);
      if p < minp || p > maxp || interval >= 0x8000_0000 {
        return false;
      }
      interval := Low(interval + m.add);
      i := i + 1;
    }
    return true;
  }

  lemma WindowsNone(pts: seq<int>, maxError: nat, pos: seq<int>, interval: int)
    ensures pos != [] ==> InWindows(pts, maxError, pos, 0)
    ensures 0 <= interval < TWO32 ==> Low(interval) == interval
  {
  }

  lemma WindowsMore(pts: seq<int>, maxError: nat, pos: seq<int>, i: nat, n: nat)
    requires InWindows(pts, maxError, pos, i) && i < n <= |pts| && n < |pos|
    ensures InWindows(pts, maxError, pos, i + 1) <==> MinP(pts, maxError, i + 1) <= pos[i + 1] <= MaxP(pts, i + 1)
    ensures InWindows(pts, maxError, pos, n) ==> InWindows(pts, maxError, pos, i + 1)
  {
    hide MinP;
  }

  /** A finished line is accepted exactly when every point lies in its window. */
  method CheckLine(pts: seq<int>, maxError: nat, m: StepMove) returns (ok: bool)
    requires Bounded(pts) && m.count <= |pts|
    requires 0 <= m.interval < TWO32 && 0 <= m.count <= MAX_COUNT && MIN_ADD <= m.add <= MAX_ADD
    ensures ok <==> m.count >= 1 && Fits(pts, maxError, m.interval, m.add, m.count)
  {
    if m.count == 0 || (m.interval == 0 && m.add == 0 && m.count > 1) || m.interval >= 0x8000_0000 {
      if m.count > 0 && Fits(pts, maxError, m.interval, m.add, m.count) {
        FitsFirst(pts, maxError, m);
        assert false;
      }
      return false;
    }
    ghost var pos, gap := Unroll(m);
    WindowsAreFits(pts, maxError, m, pos);
    ok := ReplayInWindows(pts, maxError, m, pos, gap);
  }

  lemma WindowsAreFits(pts: seq<int>, maxError: nat, m: StepMove, pos: seq<int>)
    requires 0 <= m.count <= |pts| && |pos| == m.count + 1
    requires forall k :: 0 <= k <= m.count ==> pos[k] == Line(m.interval, m.add, k)
    ensures InWindows(pts, maxError, pos, m.count) <==> Fits(pts, maxError, m.interval, m.add, m.count)
  {
    if Fits(pts, maxError, m.interval, m.add, m.count) {
      forall k | 1 <= k <= m.count ensures MinP(pts, maxError, k) <= pos[k] <= MaxP(pts, k) {
        assert FitsAt(pts, maxError, m.interval, m.add, k);
      }
    }
    if InWindows(pts, maxError, pos, m.count) {
      forall k | 1 <= k <= m.count ensures FitsAt(pts, maxError, m.interval, m.add, k) {
        assert MinP(pts, maxError, k) <= pos[k] <= MaxP(pts, k);
      }
    }
  }

  lemma FitsFirst(pts: seq<int>, maxError: nat, m: StepMove)
    requires Increasing(pts) && 1 <= m.count && Fits(pts, maxError, m.interval, m.add, m.count)
    ensures 1 <= m.interval <= pts[0]
  {
    StepsApart(pts, maxError, m.interval, m.add, m.count, 0);
    assert FitsAt(pts, maxError, m.interval, m.add, 1);
    assert Line(m.interval, m.add, 1) == m.interval;
  }

  /** Adding x in 32 bits to a clock p misses the window beyond p exactly when adding it exactly does. */
  lemma WrapRejects(x: int, p: int, minp: int, maxp: int)
    requires -0x8000 <= x < 0x8000_8000 && 0 <= p < minp <= maxp < CLOCK_DIFF_MAX
    ensures var q := Low(p + Low(x));
            ((minp <= q <= maxp && Low(x) < 0x8000_0000) <==> minp <= p + x <= maxp)
            && (minp <= p + x <= maxp ==> q == p + x)
  {
  }

  // ----- add_move -----

  /** Ticks from the first to the last step of a command, as computed in 32 bits. */
  function Ticks(m: StepMove): int {
    var addfactor := DivC(ToInt32(m.count * (m.count - 1)), 2);
    Low(m.add * addfactor + m.interval * (m.count - 1))
  }

  /** The factor is the triangle number, or half the word size below it once the product leaves 31 bits. */
  lemma FactorValue(count: int)
    requires 1 <= count <= MAX_COUNT
    ensures DivC(ToInt32(count * (count - 1)), 2) == Tri(count) - (if count <= 46341 then 0 else 0x8000_0000)
  {
    hide Low, Tri;
    TriTwice(count);
    if count <= 46341 {
      Product(count - 1, count, 46340, 46341);
      Product(0, 0, count - 1, count);
    } else {
      Product(46341, 46342, count - 1, count);
      Product(count - 1, count, 65534, 65535);
    }
    HalfOfWord(Tri(count));
  }

  /** Half of an even word, taken as a signed number. */
  lemma HalfOfWord(h: int)
    requires 0 <= h < 0x8000_0000
    ensures DivC(ToInt32(2 * h), 2) == h - (if h < 0x4000_0000 then 0 else 0x8000_0000)
  {
  }

  lemma Product(a: int, b: int, c: int, d: int)
    requires 0 <= a <= c && 0 <= b <= d
    ensures b * a <= d * c
  {
    MulMono(a, c, b);
    MulMono(b, d, c);
  }

  lemma WrapHalf(x: int, add: int)
    ensures Low(x - add * 0x8000_0000) == Low(x) <==> add % 2 == 0
  {
    var h := add / 2;
    if add % 2 == 0 {
      assert x - add * 0x8000_0000 == x - h * TWO32;
      WrapMultiple(x, -h);
    } else {
      assert x - add * 0x8000_0000 == x - 0x8000_0000 - h * TWO32;
      WrapMultiple(x - 0x8000_0000, -h);
    }
  }

  /** The 32-bit closed form agrees with the exact one, modulo the word size, exactly when the product of
      the count stays in 31 bits or `add` is even. */
  lemma ClosedFormExactIff(m: StepMove)
    requires 1 <= m.count <= MAX_COUNT
    ensures Ticks(m) == Low(Line(m.interval, m.add, m.count) - m.interval) <==> m.count <= 46341 || m.add % 2 == 0
  {
    FactorValue(m.count);
    var exact := m.add * Tri(m.count) + m.interval * (m.count - 1);
    assert exact == Line(m.interval, m.add, m.count) - m.interval;
    if m.count > 46341 {
      assert m.add * (Tri(m.count) - 0x8000_0000) == m.add * Tri(m.count) - m.add * 0x8000_0000;
      WrapHalf(exact, m.add);
    }
  }

  /** For every accepted command the closed form is the exact distance to the last step. */
  lemma TicksExact(pts: seq<int>, maxError: nat, m: StepMove)
    requires Increasing(pts) && Good(pts, maxError, m) && pts[m.count-1] < CLOCK_DIFF_MAX
    ensures Ticks(m) == Line(m.interval, m.add, m.count) - m.interval
    ensures -CLOCK_DIFF_MAX < m.add * Tri(m.count) < CLOCK_DIFF_MAX
  {
    QuadraticBounded(pts, maxError, m.interval, m.add, m.count);
    ClosedFormExactIff(m);
    if m.count > 46341 {
      Product(46341, 46342, m.count - 1, m.count);
      TriTwice(m.count);
      assert Tri(m.count) >= CLOCK_DIFF_MAX;
      SmallFactor(m.add, Tri(m.count));
    }
    FitsFirst(pts, maxError, m);
    LineGrows(pts, maxError, m);
  }

  lemma SmallFactor(a: int, b: int)
    requires CLOCK_DIFF_MAX <= b && -CLOCK_DIFF_MAX < a * b < CLOCK_DIFF_MAX
    ensures a == 0
  {
    if a >= 1 { MulMono(1, a, b); }
    if a <= -1 { MulMono(a, -1, b); }
  }

  lemma LineGrows(pts: seq<int>, maxError: nat, m: StepMove)
    requires Increasing(pts) && 1 <= m.count && Fits(pts, maxError, m.interval, m.add, m.count)
    ensures m.interval <= Line(m.interval, m.add, m.count) <= pts[m.count-1]
  {
    assert Line(m.interval, m.add, 1) == m.interval;
    var k := 1;
    while k < m.count
      invariant 1 <= k <= m.count && m.interval <= Line(m.interval, m.add, k)
    {
      StepsApart(pts, maxError, m.interval, m.add, m.count, k);
      k := k + 1;
    }
    assert FitsAt(pts, maxError, m.interval, m.add, m.count);
  }

  // ----- the search in 32 bits -----

  ghost predicate IsInt32(x: int) { -0x8000_0000 <= x < 0x8000_0000 }

  /** With `count` steps fitted, every product the search forms for the next step stays in 32 bits.
      The triangle number itself may not when add is zero, but then it is multiplied by zero. */
  lemma SearchStaysInt32(pts: seq<int>, maxError: nat, interval: int, add: int, count: int)
    requires Increasing(pts) && 1 <= count < |pts| && count <= MAX_COUNT && MIN_ADD <= add <= MAX_ADD
    requires Fits(pts, maxError, interval, add, count) && pts[count] < CLOCK_DIFF_MAX
    ensures add != 0 ==> IsInt32((count + 1) * count)
    ensures IsInt32(add * Tri(count + 1)) && IsInt32(interval * (count + 1))
    ensures IsInt32(MinP(pts, maxError, count + 1) - add * Tri(count + 1))
    ensures IsInt32(MaxP(pts, count + 1) - add * Tri(count + 1))
    ensures IsInt32(Line(interval, add, count + 1))
  {
    WindowRange(pts, maxError, count + 1);
    NextValues(pts, maxError, interval, add, count);
  }

  lemma NextValues(pts: seq<int>, maxError: nat, interval: int, add: int, count: int)
    requires Increasing(pts) && 1 <= count < |pts| && MIN_ADD <= add <= MAX_ADD
    requires Fits(pts, maxError, interval, add, count) && pts[count] < CLOCK_DIFF_MAX
    ensures add != 0 ==> IsInt32((count + 1) * count)
    ensures -0x4800_0000 < add * Tri(count + 1) < 0x4800_0000
    ensures 1 <= interval <= pts[0] && 0 < interval * (count + 1) < 0x7400_0000
    ensures IsInt32(Line(interval, add, count + 1))
  {
    var c := add * Tri(count);
    QuadraticBounded(pts, maxError, interval, add, count);
    FitsFirst(pts, maxError, StepMove(interval, count, add));
    Ordered(pts, 0, count);
    Ordered(pts, count - 1, count);
    LineGrows(pts, maxError, StepMove(interval, count, add));
    StepsApart(pts, maxError, interval, add, count, count - 1);
    ValuesStayInt32(interval, add, count, c);
  }

  // ----- narrowing the range of add, in 32 bits -----

  /** With errors up to this bound all products of the search stay in 32 bits. */
  const MAX_ERROR := 0x3_0000

  /** How far from `add` the next value may be once `count` steps fit. */
  function AddReach(maxError: nat, count: nat): int
    requires count > 0
  {
    var errdelta := maxError * QUADRATIC_DEV / (count * count);
    if errdelta < 1 then 1 else errdelta
  }

  /**
   When the search goes on after `count` steps fitted, which it does only for 512 steps or
   fewer, the values that limit the next `add` stay in 32 bits: `outer` is a bound of the
   interval and `a` one of `add`.
   */
  lemma NarrowStaysInt32(pts: seq<int>, maxError: nat, interval: int, add: int, count: int, outer: int, a: int)
    requires Increasing(pts) && 1 <= count < |pts| && count <= 0x200 && MIN_ADD <= add <= MAX_ADD
    requires Fits(pts, maxError, interval, add, count) && pts[count] < CLOCK_DIFF_MAX && maxError <= MAX_ERROR
    requires MinP(pts, maxError, 1) <= outer <= MaxP(pts, 1) && MIN_ADD <= a <= MAX_ADD
    requires count > 1 ==> -AddReach(maxError, count) <= a - add <= AddReach(maxError, count)
    ensures IsInt32(maxError * QUADRATIC_DEV) && IsInt32(count * count) && IsInt32((count + 1) * count)
    ensures IsInt32(a * Tri(count + 1)) && IsInt32(outer * (count + 1))
    ensures IsInt32(MinP(pts, maxError, count + 1) - outer * (count + 1) - Tri(count + 1))
    ensures IsInt32(MaxP(pts, count + 1) - outer * (count + 1) + Tri(count + 1))
  {
    hide Fits, Increasing, Line, Tri, MinP;
    WindowRange(pts, maxError, count + 1);
    NextValues(pts, maxError, interval, add, count);
    OuterNear(pts, maxError, interval, add, count, outer);
    OuterProduct(interval, outer, count, maxError);
    TriSmall(count);
    if count == 1 {
      TriTwo();
    } else {
      ReachProduct(maxError, count);
      AddProduct(add, a, Tri(count + 1), AddReach(maxError, count));
    }
    Product(count, count, 0x200, 0x200);
    Product(count, count + 1, 0x200, 0x201);
  }

  lemma OuterNear(pts: seq<int>, maxError: nat, interval: int, add: int, count: int, outer: int)
    requires Increasing(pts) && 1 <= count <= |pts| && Fits(pts, maxError, interval, add, count)
    requires MinP(pts, maxError, 1) <= outer <= MaxP(pts, 1)
    ensures 1 <= outer <= interval + maxError
  {
    assert FitsAt(pts, maxError, interval, add, 1) && Rises(pts, 0);
    assert Line(interval, add, 1) == interval;
  }

  lemma OuterProduct(interval: int, outer: int, count: int, maxError: nat)
    requires 1 <= outer <= interval + maxError && 1 <= count <= 0x200 && maxError <= MAX_ERROR
    requires interval * (count + 1) < 0x7400_0000
    ensures 0 < outer * (count + 1) < 0x7b00_0000
  {
    MulMono(outer, interval + maxError, count + 1);
    assert (interval + maxError) * (count + 1) == interval * (count + 1) + maxError * (count + 1);
    Product(maxError, count + 1, MAX_ERROR, 0x201);
  }

  lemma TriTwo()
    ensures Tri(2) == 1
  {
  }

  lemma TriSmall(count: int)
    requires 1 <= count <= 0x200
    ensures 0 < Tri(count + 1) <= 0x2_0100
  {
    TriTwice(count + 1);
    Product(count, count + 1, 0x200, 0x201);
    MulMono(1, count, count + 1);
  }

  /** What the reach adds at the next step is small. */
  lemma ReachProduct(maxError: nat, count: int)
    requires 2 <= count <= 0x200 && maxError <= MAX_ERROR
    ensures 0 <= AddReach(maxError, count) * Tri(count + 1) <= 0x100_0000
  {
    hide Tri;
    TriSmall(count);
    MulMono(1, count, count);
    TriTwice(count + 1);
    assert (count + 1) * count == count * count + count;
    Share(maxError * QUADRATIC_DEV, count * count, Tri(count + 1));
  }

  /** A quotient times less than the divisor. */
  lemma Share(n: int, d: int, t: int)
    requires 0 <= n && 0 < t <= d
    ensures 0 <= (n / d) * t <= n
  {
    var q := n / d;
    assert q * d <= n && 0 <= q;
    assert q * t <= q * d by { MulMono(t, d, q); }
    assert 0 <= q * t by { MulMono(0, t, q); }
  }

  lemma AddProduct(add: int, a: int, tri: int, reach: int)
    requires 0 < tri && 0 <= reach && -reach <= a - add <= reach && reach * tri <= 0x100_0000
    requires -0x4800_0000 < add * tri < 0x4800_0000
    ensures IsInt32(a * tri)
  {
    MulMono(a, add + reach, tri);
    MulMono(add - reach, a, tri);
    assert (add + reach) * tri == add * tri + reach * tri && (add - reach) * tri == add * tri - reach * tri;
  }

  lemma WindowRange(pts: seq<int>, maxError: nat, k: nat)
    requires Increasing(pts) && 1 <= k <= |pts| && pts[k-1] < CLOCK_DIFF_MAX
    ensures 0 <= MinP(pts, maxError, k) <= MaxP(pts, k) < CLOCK_DIFF_MAX
  {
    assert Rises(pts, k - 1);
    if k > 1 { Ordered(pts, k - 2, k - 2); }
  }

  lemma ValuesStayInt32(interval: int, add: int, count: int, c: int)
    requires 1 <= count && MIN_ADD <= add <= MAX_ADD && 1 <= interval < CLOCK_DIFF_MAX
    requires c == add * Tri(count) && -CLOCK_DIFF_MAX < c < CLOCK_DIFF_MAX
    requires 1 <= interval + add * (count - 1) && 0 < interval * count + c < CLOCK_DIFF_MAX
    ensures add != 0 ==> IsInt32((count + 1) * count)
    ensures -0x4800_0000 < add * Tri(count + 1) < 0x4800_0000
    ensures 0 < interval * (count + 1) < 0x7400_0000
    ensures IsInt32(Line(interval, add, count + 1))
  {
    TriStep(count);
    assert add * Tri(count + 1) == c + add * count;
    assert interval * (count + 1) == interval * count + interval;
    MulMono(0, count + 1, count);
    NextTerm(add, count, c);
    NextProduct(add, count, c);
    NextInterval(interval, add, count, c);
    LastGap(interval, add, count, c);
    LineStep(interval, add, count);
  }

  /** Either few steps or little growth of the quadratic term. */
  lemma NextTerm(add: int, count: int, c: int)
    requires 1 <= count && MIN_ADD <= add <= MAX_ADD && c == add * Tri(count) && -CLOCK_DIFF_MAX < c < CLOCK_DIFF_MAX
    ensures -0x4800_0000 < c + add * count < 0x4800_0000
  {
    if count <= 4 {
      assert Tri(1) == 0 && Tri(2) == 1 && Tri(3) == 3 && Tri(4) == 6;
    } else {
      TriTwice(count);
      assert 2 * c == add * (count * (count - 1)) == (add * count) * (count - 1);
      if add >= 0 {
        MulMono(0, add, count);
        MulMono(4, count - 1, add * count);
      } else {
        MulMono(add, 0, count);
        MulMono(4, count - 1, -(add * count));
        assert -(add * count) * (count - 1) == -2 * c;
      }
    }
  }

  lemma NextProduct(add: int, count: int, c: int)
    requires 1 <= count && c == add * Tri(count) && -CLOCK_DIFF_MAX < c < CLOCK_DIFF_MAX
    ensures add != 0 ==> (count + 1) * count < 0x8000_0000
  {
    if add != 0 && count > 46340 {
      Product(46340, 46341, count - 1, count);
      TriTwice(count);
      SmallFactor(add, Tri(count));
    }
    if count <= 46340 { Product(count, count + 1, 46340, 46341); }
  }

  lemma NextInterval(interval: int, add: int, count: int, c: int)
    requires 1 <= count && 1 <= interval < CLOCK_DIFF_MAX && MIN_ADD <= add <= MAX_ADD
    requires c == add * Tri(count) && -CLOCK_DIFF_MAX < c < CLOCK_DIFF_MAX
    requires interval * count + c < CLOCK_DIFF_MAX
    ensures 0 < interval * count + interval < 0x7400_0000
  {
    MulMono(1, interval, count);
    if count <= 4 {
      assert Tri(1) == 0 && Tri(2) == 1 && Tri(3) == 3 && Tri(4) == 6;
    } else {
      MulMono(5, count, interval);
    }
  }

  /** The gap before the last step is at most the line, so the next point is not far beyond. */
  lemma LastGap(interval: int, add: int, count: int, c: int)
    requires 1 <= count && MIN_ADD <= add <= MAX_ADD && 1 <= interval < CLOCK_DIFF_MAX
    requires c == add * Tri(count) && 1 <= interval + add * (count - 1)
    requires 0 < interval * count + c < CLOCK_DIFF_MAX
    ensures -0x8000 <= interval + add * count < 0x4000_0000
  {
    assert add * count == add * (count - 1) + add;
    TriTwice(count);
    assert 2 * c == add * (count * (count - 1)) == (add * (count - 1)) * count;
    var g := interval + add * (count - 1);
    assert g * count == interval * count + 2 * c;
    if count >= 2 {
      // the line is half of count * (first gap + last gap)
      assert 2 * (interval * count + c) == interval * count + g * count;
      MulMono(2, count, g);
      MulMono(1, interval, count);
    }
  }
}
