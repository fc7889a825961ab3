/** The search for a line that covers as many steps as possible. */
module CompressSearch {
  import opened StepLine

  /** With more steps than this no other `add` is tried. */
  const SEARCH_LIMIT := 0x200

  /** Every interval between lo0 and hi0 that fits `count` steps lies between lo and hi. */
  ghost predicate Complete(pts: seq<int>, maxError: nat, add: int, count: int, lo0: int, hi0: int, lo: int, hi: int) {
    forall x :: lo0 <= x <= hi0 && Fits(pts, maxError, x, add, count) ==> lo <= x <= hi
  }

  /** No greater interval between lo0 and hi0 fits `count` steps. */
  ghost predicate NoneAbove(pts: seq<int>, maxError: nat, add: int, count: int, lo0: int, hi0: int, interval: int) {
    forall x :: lo0 <= x <= hi0 && Fits(pts, maxError, x, add, count) ==> x <= interval
  }

  lemma TightenStep(pts: seq<int>, maxError: nat, add: int, n: nat, lo0: int, hi0: int, lo: int, hi: int, lo': int,
                    hi': int)
    requires 2 <= n <= |pts|
    requires Inside(pts, maxError, add, n - 1, lo, hi) && Complete(pts, maxError, add, n - 1, lo0, hi0, lo, hi)
    requires lo' == RaiseMin(lo, n, MinP(pts, maxError, n) - add * Tri(n))
    requires hi' == LowerMax(hi, n, MaxP(pts, n) - add * Tri(n))
    ensures Inside(pts, maxError, add, n, lo', hi')
    ensures Complete(pts, maxError, add, n, lo0, hi0, lo', hi')
  {
    InsideShrinks(pts, maxError, add, n - 1, lo, hi, lo', hi');
    forall x | lo0 <= x <= hi0 && Fits(pts, maxError, x, add, n) ensures lo' <= x <= hi' {
      assert Fits(pts, maxError, x, add, n - 1);
      assert FitsAt(pts, maxError, x, add, n);
      BoundsComplete(x, lo, hi, n, MinP(pts, maxError, n) - add * Tri(n), MaxP(pts, n) - add * Tri(n));
    }
  }

  lemma WindowOrder(pts: seq<int>, maxError: nat, k: nat)
    requires Increasing(pts) && 1 <= k <= |pts|
    ensures MinP(pts, maxError, k) <= MaxP(pts, k)
  {
    assert Rises(pts, k - 1);
  }

  /** Finds the longest sequence of steps covered with the given `add` and an interval between lo0 and hi0. */
  method LongestSequence(pts: seq<int>, maxError: nat, last: nat, lo0: int, hi0: int, add: int)
    returns (interval: int, nextcount: nat, nextmin: int, nextmax: int)
    requires 1 <= last <= |pts| && Increasing(pts) && lo0 <= hi0 && Inside(pts, maxError, add, 1, lo0, hi0)
    ensures 2 <= nextcount <= last + 1 && lo0 <= interval <= hi0 && lo0 <= nextmin && nextmax <= hi0
    ensures Fits(pts, maxError, interval, add, nextcount - 1)
    ensures NoneAbove(pts, maxError, add, nextcount - 1, lo0, hi0, interval)
    ensures nextcount <= last ==>
              && (if Line(interval, add, nextcount) < MinP(pts, maxError, nextcount)
                     then nextmax == interval else nextmin <= interval)
              && (forall x :: lo0 <= x <= hi0 ==> !Fits(pts, maxError, x, add, nextcount))
    ensures nextcount == 2 <= last ==>
              interval == hi0 && nextmin == RaiseMin(lo0, 2, MinP(pts, maxError, 2) - add * Tri(2))
  {
    hide Fits, Inside, Increasing;
    nextmin, nextmax, interval, nextcount := lo0, hi0, hi0, 1;
    while true
      invariant 1 <= nextcount <= last && lo0 <= nextmin <= interval == nextmax <= hi0
      invariant nextcount == 1 ==> nextmin == lo0 && nextmax == hi0
      invariant Inside(pts, maxError, add, nextcount, nextmin, nextmax)
      invariant Complete(pts, maxError, add, nextcount, lo0, hi0, nextmin, nextmax)
      decreases last - nextcount
    {
      ghost var lo, hi := nextmin, nextmax;
      InsideFits(pts, maxError, add, nextcount, lo, hi, interval);
      nextcount := nextcount + 1;
      if nextcount > last {
        return;
      }
      var c := add * Tri(nextcount);
      var minp, maxp := MinP(pts, maxError, nextcount), MaxP(pts, nextcount);
      if nextmin * nextcount < minp - c {
        nextmin := IdivUp(minp - c, nextcount);
      }
      if nextmax * nextcount > maxp - c {
        nextmax := IdivDown(maxp - c, nextcount);
      }
      assert nextmin == RaiseMin(lo, nextcount, minp - c) && nextmax == LowerMax(hi, nextcount, maxp - c);
      TightenStep(pts, maxError, add, nextcount, lo0, hi0, lo, hi, nextmin, nextmax);
      if nextmin > nextmax {
        WindowOrder(pts, maxError, nextcount);
        if minp - c <= interval * nextcount && lo * nextcount < minp - c {
          MulOrder(nextmin - 1, interval, nextcount);
        }
        return;
      }
      interval := nextmax;
    }
  }

  lemma FirstWindow(pts: seq<int>, maxError: nat, lo: int, hi: int)
    requires |pts| >= 1 && Increasing(pts)
    requires MinP(pts, maxError, 1) <= lo && hi <= MaxP(pts, 1)
    ensures forall add :: Inside(pts, maxError, add, 1, lo, hi)
    ensures 1 <= MinP(pts, maxError, 1) <= MaxP(pts, 1)
  {
    assert Rises(pts, 0);
    forall add ensures Inside(pts, maxError, add, 1, lo, hi) {
      assert Line(lo, add, 1) == lo && Line(hi, add, 1) == hi;
    }
  }

  lemma FirstWindowHolds(pts: seq<int>, maxError: nat, i: int, add: int, n: int)
    requires 1 <= n && Fits(pts, maxError, i, add, n)
    ensures MinP(pts, maxError, 1) <= i <= MaxP(pts, 1)
  {
    assert FitsAt(pts, maxError, i, add, 1);
    assert Line(i, add, 1) == i;
  }

  lemma FitsShorter(pts: seq<int>, maxError: nat, i: int, add: int, n: int, n': int)
    requires n' <= n && Fits(pts, maxError, i, add, n)
    ensures Fits(pts, maxError, i, add, n')
  {
  }

  /** When no interval in the first window fits n steps with add 0, no constant interval does. */
  lemma ConstantLimit(pts: seq<int>, maxError: nat, last: int, n: int)
    requires |pts| >= 1 && 1 <= n
    requires forall x :: MinP(pts, maxError, 1) <= x <= MaxP(pts, 1) ==> !Fits(pts, maxError, x, 0, n)
    ensures NoLongerConstant(pts, maxError, last, n - 1)
  {
    forall i, c | n - 1 < c <= last ensures !Fits(pts, maxError, i, 0, c) {
      if Fits(pts, maxError, i, 0, c) {
        FirstWindowHolds(pts, maxError, i, 0, c);
        FitsShorter(pts, maxError, i, 0, c, n);
      }
    }
  }

  /** A line that covers two steps. */
  ghost predicate Pair(pts: seq<int>, maxError: nat, i: int, a: int) {
    MIN_ADD <= a <= MAX_ADD && Fits(pts, maxError, i, a, 2)
  }

  lemma PairMeans(pts: seq<int>, maxError: nat, i: int, a: int)
    requires |pts| >= 2
    ensures Fits(pts, maxError, i, a, 2) <==>
              MinP(pts, maxError, 1) <= i <= MaxP(pts, 1) && MinP(pts, maxError, 2) <= 2 * i + a <= MaxP(pts, 2)
  {
    assert Line(i, a, 1) == i && Line(i, a, 2) == 2 * i + a;
    if MinP(pts, maxError, 1) <= i <= MaxP(pts, 1) && MinP(pts, maxError, 2) <= 2 * i + a <= MaxP(pts, 2) {
      forall k | 1 <= k <= 2 ensures FitsAt(pts, maxError, i, a, k) {}
    }
    if Fits(pts, maxError, i, a, 2) {
      assert FitsAt(pts, maxError, i, a, 1) && FitsAt(pts, maxError, i, a, 2);
    }
  }

  /** A pair within the ranges of the search. */
  ghost predicate PairWithin(pts: seq<int>, maxError: nat, i: int, a: int, minadd: int, maxadd: int, lo: int, hi: int) {
    Pair(pts, maxError, i, a) && minadd <= a <= maxadd && lo <= i <= hi
  }

  lemma RaiseTwo(lo: int, target: int)
    ensures var r := RaiseMin(lo, 2, target); r == lo >= target - lo || (lo < r && target <= 2 * r <= target + 1)
  {
  }

  /** The ranges that are left after a value of add that covers one step only still hold a pair, if they did. */
  lemma PairStays(pts: seq<int>, maxError: nat, lo: int, hi: int, add: int, minadd: int, maxadd: int, i: int, a: int)
    returns (i': int, a': int)
    requires |pts| >= 2 && Increasing(pts) && MinP(pts, maxError, 1) <= lo && hi <= MaxP(pts, 1)
    requires Pair(pts, maxError, i, a) && lo <= i <= hi && minadd <= a <= maxadd && minadd <= add <= maxadd
    requires MIN_ADD <= minadd && maxadd <= MAX_ADD && (minadd < maxadd ==> minadd < add)
    requires forall x :: lo <= x <= hi ==> !Fits(pts, maxError, x, add, 2)
    ensures Pair(pts, maxError, i', a')
    ensures if Line(hi, add, 2) < MinP(pts, maxError, 2) then add < a' <= maxadd && lo <= i' <= hi
            else minadd <= a' < add && RaiseMin(lo, 2, MinP(pts, maxError, 2) - add * Tri(2)) <= i' <= hi
  {
    hide Fits, MinP, MaxP, Increasing, RaiseMin;
    PairMeans(pts, maxError, i, a);
    assert Line(hi, add, 2) == 2 * hi + add && Tri(2) == 1;
    var minp, maxp := MinP(pts, maxError, 2), MaxP(pts, 2);
    WindowOrder(pts, maxError, 2);
    PairMeans(pts, maxError, i, add);
    assert !Fits(pts, maxError, i, add, 2);
    i', a' := i, a;
    if Line(hi, add, 2) >= minp {
      var r := RaiseMin(lo, 2, minp - add);
      RaiseTwo(lo, minp - add);
      if a > add {
        PairMeans(pts, maxError, r, add);
        assert !Fits(pts, maxError, r, add, 2);
        i', a' := r, add - 1;
        PairMeans(pts, maxError, i', a');
      }
    }
  }

  lemma PairReaches(pts: seq<int>, maxError: nat, i: int, a: int, add: int, lo: int, hi: int)
    requires |pts| >= 2 && Pair(pts, maxError, i, a) && lo <= i <= hi
    ensures Reaches(a, add, 1, maxError, Tri(2), MinP(pts, maxError, 2) - hi * 2, MaxP(pts, 2) - lo * 2)
  {
    hide MinP, MaxP;
    PairMeans(pts, maxError, i, a);
  }

  /** The ranges of add and of the interval after one value of add; while only one step is covered a pair in
      the ranges stays, though it may be another one. */
  method NextRange(pts: seq<int>, maxError: nat, minadd: int, maxadd: int, outerMin: int, outerMax: int, add: int,
                   interval: int, nextcount: nat, nextmin: int, nextmax: int, ghost pair: bool, ghost i: int,
                   ghost a: int)
    returns (minadd': int, maxadd': int, outerMin': int, outerMax': int, ghost i': int, ghost a': int)
    requires Increasing(pts) && 2 <= nextcount <= |pts| && MIN_ADD <= minadd <= add <= maxadd <= MAX_ADD
    requires minadd < maxadd ==> minadd < add
    requires MinP(pts, maxError, 1) <= outerMin <= interval <= outerMax <= MaxP(pts, 1)
    requires outerMin <= nextmin && nextmax <= outerMax
    requires if Line(interval, add, nextcount) < MinP(pts, maxError, nextcount)
             then nextmax == interval else nextmin <= interval
    requires nextcount == 2 ==>
      && interval == outerMax && nextmin == RaiseMin(outerMin, 2, MinP(pts, maxError, 2) - add * Tri(2))
      && forall x :: outerMin <= x <= outerMax ==> !Fits(pts, maxError, x, add, 2)
    requires pair ==> nextcount == 2 && PairWithin(pts, maxError, i, a, minadd, maxadd, outerMin, outerMax)
    ensures minadd <= minadd' && maxadd' <= maxadd && (add < minadd' || maxadd' < add)
    ensures outerMin <= outerMin' <= outerMax' <= outerMax
    ensures pair ==> PairWithin(pts, maxError, i', a', minadd', maxadd', outerMin', outerMax')
  {
    hide Fits, MinP, MaxP, RaiseMin, Increasing;
    TriPositive(nextcount);
    i', a' := i, a;
    if pair { i', a' := PairStays(pts, maxError, outerMin, outerMax, add, minadd, maxadd, i, a); }
    var minp, maxp := MinP(pts, maxError, nextcount), MaxP(pts, nextcount);
    minadd', maxadd', outerMin', outerMax' := minadd, maxadd, outerMin, outerMax;
    if Line(interval, add, nextcount) < minp {
      minadd', outerMax' := add + 1, nextmax;
    } else {
      maxadd', outerMin' := add - 1, nextmin;
    }
    if pair { PairReaches(pts, maxError, i', a', add, outerMin', outerMax'); }
    minadd', maxadd' := NarrowAdd(minadd', maxadd', add, nextcount - 1, maxError, Tri(nextcount),
                                  minp - outerMax' * nextcount, maxp - outerMin' * nextcount);
  }

  /** No line tried reaches further. */
  ghost predicate AllWithin(tried: seq<StepMove>, reach: int) {
    forall j :: 0 <= j < |tried| ==> Line(tried[j].interval, tried[j].add, tried[j].count) <= reach
  }

  lemma WithinMore(tried: seq<StepMove>, reach: int, m: StepMove, reach': int)
    requires AllWithin(tried, reach) && reach <= reach' && Line(m.interval, m.add, m.count) <= reach'
    ensures AllWithin(tried + [m], reach')
  {
    hide Line;
  }

  /** Every line tried is good, and none covers more steps than the best. */
  ghost predicate AllTried(pts: seq<int>, maxError: nat, tried: seq<StepMove>, count: int) {
    forall j :: 0 <= j < |tried| ==> Good(pts, maxError, tried[j]) && tried[j].count <= count
  }

  lemma TriedMore(pts: seq<int>, maxError: nat, tried: seq<StepMove>, count: int, m: StepMove, count': int)
    requires AllTried(pts, maxError, tried, count) && Good(pts, maxError, m) && count <= count' && m.count <= count'
    ensures AllTried(pts, maxError, tried + [m], count')
  {
    hide Good;
  }

  /** Of two lines that fit, the one that reaches further does not cover fewer steps. */
  lemma ReachDecides(pts: seq<int>, maxError: nat, a: StepMove, b: StepMove)
    requires Increasing(pts) && Good(pts, maxError, a) && Good(pts, maxError, b)
    ensures Line(a.interval, a.add, a.count) <= Line(b.interval, b.add, b.count) ==> a.count <= b.count
    ensures a.count < b.count ==> Line(a.interval, a.add, a.count) < Line(b.interval, b.add, b.count)
  {
    hide Increasing, Line, Fits;
    if b.count < a.count { ReachGrows(pts, maxError, b, a); }
    if a.count < b.count { ReachGrows(pts, maxError, a, b); }
  }

  /** Some line covers two steps. */
  ghost predicate HasPair(pts: seq<int>, maxError: nat) {
    exists i, a :: Pair(pts, maxError, i, a)
  }

  /**
   What is promised of the line chosen.  It is one of those tried, of which the first has a
   constant interval.  It covers at least as many steps as any line with a constant interval,
   and at least two if any line does.  No line tried covers more steps, except by up to a
   sixteenth when the line chosen has a constant interval; otherwise none reaches further,
   unless all steps are covered.
   */
  ghost predicate Chosen(pts: seq<int>, maxError: nat, m: StepMove, tried: seq<StepMove>) {
    && Good(pts, maxError, m) && m in tried && tried[0].add == 0
    && NoLongerConstant(pts, maxError, if |pts| < MAX_COUNT then |pts| else MAX_COUNT, m.count)
    && (HasPair(pts, maxError) ==> m.count >= 2)
    && AllTried(pts, maxError, tried, m.count + if m.add == 0 then m.count / 16 else 0)
    && (m.add != 0 && m.count < |pts| && m.count < MAX_COUNT ==>
          AllWithin(tried, Line(m.interval, m.add, m.count)))
  }

  /** All steps are covered. */
  lemma ChosenAll(pts: seq<int>, maxError: nat, m: StepMove, tried: seq<StepMove>, last: nat)
    requires last == (if |pts| > MAX_COUNT then MAX_COUNT else |pts|) && m.count == last && Good(pts, maxError, m)
    requires m in tried && tried[0].add == 0 && AllTried(pts, maxError, tried, last)
    ensures Chosen(pts, maxError, m, tried)
  {
    hide Fits, Line, Pair, AllTried, AllWithin;
    TriedWithin(pts, maxError, tried, last, last + if m.add == 0 then last / 16 else 0);
    NothingLonger(pts, maxError, last);
    if HasPair(pts, maxError) { PairInQueue(pts, maxError, last); }
  }

  /** The line with a constant interval is preferred if it covers nearly as many steps as the best. */
  method Choose(pts: seq<int>, maxError: nat, zerointerval: int, zerocount: nat, best: StepMove,
                ghost tried: seq<StepMove>)
    returns (m: StepMove)
    requires Good(pts, maxError, best) && best in tried && 1 <= zerocount <= best.count
    requires tried[0] == StepMove(zerointerval, zerocount, 0) && Good(pts, maxError, tried[0])
    requires NoLongerConstant(pts, maxError, if |pts| < MAX_COUNT then |pts| else MAX_COUNT, zerocount)
    requires AllTried(pts, maxError, tried, best.count)
    requires AllWithin(tried, Line(best.interval, best.add, best.count))
    requires HasPair(pts, maxError) ==> best.count >= 2
    ensures Chosen(pts, maxError, m, tried)
    ensures m == if zerocount + zerocount / 16 >= best.count then StepMove(zerointerval, zerocount, 0) else best
  {
    hide Fits, Line, Pair, HasPair, AllTried, AllWithin, NoLongerConstant;
    if zerocount + zerocount / 16 >= best.count {
      TriedWithin(pts, maxError, tried, best.count, zerocount + zerocount / 16);
      return StepMove(zerointerval, zerocount, 0);
    }
    TriedWithin(pts, maxError, tried, best.count, best.count + if best.add == 0 then best.count / 16 else 0);
    NoLonger(pts, maxError, if |pts| < MAX_COUNT then |pts| else MAX_COUNT, zerocount, best.count);
    return best;
  }

  /** Finds a line that stays in the window of every step it covers. */
  method CompressBisectAdd(pts: seq<int>, maxError: nat) returns (m: StepMove, ghost tried: seq<StepMove>)
    requires |pts| >= 1 && Increasing(pts)
    ensures Good(pts, maxError, m) && Chosen(pts, maxError, m, tried)
  {
    hide Fits, Increasing, Line, Tri, MinP, Pair, HasPair, AllTried, RaiseMin, NoLongerConstant, AllWithin;
    var last := if |pts| > MAX_COUNT then MAX_COUNT else |pts|;
    var outerMin, outerMax := MinP(pts, maxError, 1), MaxP(pts, 1);
    var add, minadd, maxadd := 0, MIN_ADD, MAX_ADD;
    var best, bestreach := StepMove(0, 1, 1), -0x8000_0000;
    var zerointerval, zerocount := 0, 0;
    tried := [];
    TriedNone(pts, maxError, 1, bestreach);
    FirstWindow(pts, maxError, outerMin, outerMax);
    ghost var pair := HasPair(pts, maxError);
    ghost var pi, pa := 0, 0;
    if pair { pi, pa := SomePair(pts, maxError); }
    while true
      invariant MIN_ADD <= minadd <= add <= maxadd <= MAX_ADD && (minadd < maxadd ==> minadd < add)
      invariant MinP(pts, maxError, 1) <= outerMin <= outerMax <= MaxP(pts, 1)
      invariant if zerocount == 0 then
                  add == 0 && bestreach == -0x8000_0000 && tried == [] && best.count == 1
                  && outerMin == MinP(pts, maxError, 1) && outerMax == MaxP(pts, 1)
                else
                  && Good(pts, maxError, best) && best in tried
                  && Good(pts, maxError, StepMove(zerointerval, zerocount, 0))
                  && NoLongerConstant(pts, maxError, last, zerocount)
                  && tried != [] && tried[0] == StepMove(zerointerval, zerocount, 0)
                  && (minadd > 0 || maxadd < 0) && zerocount <= best.count <= SEARCH_LIMIT
                  && bestreach == Line(best.interval, best.add, best.count)
      invariant AllTried(pts, maxError, tried, best.count) && AllWithin(tried, bestreach)
      invariant pair && best.count < 2 ==> PairWithin(pts, maxError, pi, pa, minadd, maxadd, outerMin, outerMax)
      decreases maxadd - minadd
    {
      FirstWindow(pts, maxError, outerMin, outerMax);
      var interval, nextcount, nextmin, nextmax := LongestSequence(pts, maxError, last, outerMin, outerMax, add);
      var count := nextcount - 1;
      ghost var found := StepMove(interval, count, add);
      GoodFound(pts, maxError, found, outerMin);
      TriedMore(pts, maxError, tried, best.count, found, if best.count < count then count else best.count);
      ghost var before := tried;
      tried := tried + [found];
      if nextcount > last {
        ChosenAll(pts, maxError, found, tried, last);
        return StepMove(interval, count, add), tried;
      }
      var reach := Line(interval, add, count);
      if zerocount != 0 {
        ReachDecides(pts, maxError, best, found);
        ReachDecides(pts, maxError, found, best);
      } else {
        ReachPositive(pts, maxError, interval, add, count);
        ConstantLimit(pts, maxError, last, nextcount);
      }
      WithinMore(before, bestreach, found, if reach > bestreach then reach else bestreach);
      if reach > bestreach || (reach == bestreach && interval > best.interval) {
        best, bestreach := StepMove(interval, count, add), reach;
        if add == 0 {
          zerointerval, zerocount := interval, count;
        }
        if count > SEARCH_LIMIT {
          break;
        }
      }
      assert count <= SEARCH_LIMIT;  // the search goes on only with few steps
      minadd, maxadd, outerMin, outerMax, pi, pa :=
        NextRange(pts, maxError, minadd, maxadd, outerMin, outerMax, add, interval, nextcount, nextmin, nextmax,
                  pair && best.count < 2, pi, pa);
      if minadd > maxadd {
        break;
      }
      add := maxadd - (maxadd - minadd) / 4;
    }
    m := Choose(pts, maxError, zerointerval, zerocount, best, tried);
  }

  lemma TriedNone(pts: seq<int>, maxError: nat, count: int, reach: int)
    ensures AllTried(pts, maxError, [], count) && AllWithin([], reach)
  {
  }

  lemma TriedWithin(pts: seq<int>, maxError: nat, tried: seq<StepMove>, count: int, count': int)
    requires AllTried(pts, maxError, tried, count) && count <= count'
    ensures AllTried(pts, maxError, tried, count')
  {
  }

  lemma SomePair(pts: seq<int>, maxError: nat) returns (i: int, a: int)
    requires HasPair(pts, maxError)
    ensures |pts| >= 1 && PairWithin(pts, maxError, i, a, MIN_ADD, MAX_ADD, MinP(pts, maxError, 1), MaxP(pts, 1))
  {
    i, a :| Pair(pts, maxError, i, a);
    FirstWindowHolds(pts, maxError, i, a, 2);
  }

  lemma GoodFound(pts: seq<int>, maxError: nat, m: StepMove, lo: int)
    requires |pts| >= 1 && Increasing(pts) && Fits(pts, maxError, m.interval, m.add, m.count)
    requires 1 <= m.count <= MAX_COUNT && MIN_ADD <= m.add <= MAX_ADD && MinP(pts, maxError, 1) <= lo <= m.interval
    ensures Good(pts, maxError, m)
  {
    FirstWindow(pts, maxError, lo, MaxP(pts, 1));
  }

  lemma NothingLonger(pts: seq<int>, maxError: nat, last: int)
    ensures NoLongerConstant(pts, maxError, last, last)
  {
  }

  lemma NoLonger(pts: seq<int>, maxError: nat, last: int, c: int, c': int)
    requires NoLongerConstant(pts, maxError, last, c) && c <= c'
    ensures NoLongerConstant(pts, maxError, last, c')
  {
  }

  lemma PairInQueue(pts: seq<int>, maxError: nat, last: nat)
    requires HasPair(pts, maxError) && last == if |pts| > MAX_COUNT then MAX_COUNT else |pts|
    ensures last >= 2
  {
    var i, a :| Pair(pts, maxError, i, a);
  }

  /** How far add may be off another one that covers as many steps. */
  function Deviation(maxError: nat, count: nat): int
    requires 1 <= count
  {
    maxError * QUADRATIC_DEV / (count * count)
  }

  /** A value of add within the deviation that can reach the next window. */
  ghost predicate Reaches(a: int, add: int, count: nat, maxError: nat, factor: int, minTarget: int, maxTarget: int)
    requires 1 <= count
  {
    && minTarget <= a * factor <= maxTarget
    && (count > 1 ==> add - Deviation(maxError, count) <= a <= add + Deviation(maxError, count))
  }

  /** Narrows the range of add: it never widens, and nothing is dropped but what is further off than the
      deviation or cannot reach the next window. */
  method NarrowAdd(minadd: int, maxadd: int, add: int, count: nat, maxError: nat, factor: int, minTarget: int,
                   maxTarget: int)
    returns (lo: int, hi: int)
    requires 1 <= count && 1 <= factor
    ensures minadd <= lo && hi <= maxadd
    ensures minTarget <= lo * factor && hi * factor <= maxTarget
    ensures count > 1 ==> add - Deviation(maxError, count) <= lo && hi <= add + Deviation(maxError, count)
    ensures forall a :: minadd <= a <= maxadd && Reaches(a, add, count, maxError, factor, minTarget, maxTarget) ==>
              lo <= a <= hi
  {
    lo, hi := minadd, maxadd;
    if count > 1 {
      var errdelta := Deviation(maxError, count);
      if lo < add - errdelta { lo := add - errdelta; }
      if hi > add + errdelta { hi := add + errdelta; }
    }
    ghost var lo', hi' := lo, hi;
    if lo * factor < minTarget { lo := IdivUp(minTarget, factor); }
    if hi * factor > maxTarget { hi := IdivDown(maxTarget, factor); }
    assert lo == RaiseMin(lo', factor, minTarget) && hi == LowerMax(hi', factor, maxTarget);
    forall a | minadd <= a <= maxadd && Reaches(a, add, count, maxError, factor, minTarget, maxTarget)
      ensures lo <= a <= hi
    {
      BoundsComplete(a, lo', hi', factor, minTarget, maxTarget);
    }
  }

  lemma TriPositive(k: int)
    requires 2 <= k
    ensures 1 <= Tri(k)
  {
    MulMono(1, k - 1, k);
  }

  /** A line that covers more steps reaches further. */
  lemma ReachGrows(pts: seq<int>, maxError: nat, a: StepMove, b: StepMove)
    requires Increasing(pts) && 1 <= a.count < b.count
    requires Fits(pts, maxError, a.interval, a.add, a.count) && Fits(pts, maxError, b.interval, b.add, b.count)
    ensures Line(a.interval, a.add, a.count) < Line(b.interval, b.add, b.count)
  {
    assert FitsAt(pts, maxError, a.interval, a.add, a.count) && FitsAt(pts, maxError, b.interval, b.add, b.count);
    Ordered(pts, a.count - 1, b.count - 2);
    assert Rises(pts, b.count - 1);
  }

  lemma ReachPositive(pts: seq<int>, maxError: nat, interval: int, add: int, count: nat)
    requires Increasing(pts) && 1 <= count && Fits(pts, maxError, interval, add, count)
    ensures 0 < Line(interval, add, count)
  {
    assert FitsAt(pts, maxError, interval, add, count) && Rises(pts, count - 1);
    if count > 1 { Ordered(pts, count - 2, count - 1); }
  }
}
