/**
 Order on a clock that wraps: wake times are 32-bit words, compared by the sign of their
 difference.  Behind each word stands a full clock, and the words order like the clocks as
 long as these span less than half a turn.
 */
module TimerOrder {
  import opened Word32

  const HALF := 0x8000_0000

  /** The signed 32-bit value of a - b is negative. */
  predicate IsBefore(a: int, b: int) {
    Low(a - b) >= HALF
  }

  function Words(clocks: seq<int>): (r: seq<int>)
    ensures |r| == |clocks| && forall i :: 0 <= i < |r| ==> r[i] == Low(clocks[i])
  {
    seq(|clocks|, i requires 0 <= i < |clocks| => Low(clocks[i]))
  }

  ghost predicate Sorted(clocks: seq<int>) {
    forall i, j :: 0 <= i < j < |clocks| ==> clocks[i] <= clocks[j]
  }

  /** Within half a turn of every one of the clocks. */
  ghost predicate Near(clocks: seq<int>, x: int) {
    forall i :: 0 <= i < |clocks| ==> -HALF < clocks[i] - x < HALF
  }

  ghost predicate Span(clocks: seq<int>) {
    forall i :: 0 <= i < |clocks| ==> Near(clocks, clocks[i])
  }

  /** Where a search that starts after place k stops; |words| if it runs off the list.  From outside, k is -1. */
  function FirstAfter(words: seq<int>, k: int, w: int): (j: nat)
    requires -1 <= k < |words|
    ensures k < j <= |words|
    ensures forall i :: k < i < j ==> !IsBefore(w, words[i])
    ensures j < |words| ==> IsBefore(w, words[j])
    decreases |words| - k
  {
    if k + 1 == |words| then |words| else if IsBefore(w, words[k + 1]) then k + 1 else FirstAfter(words, k + 1, w)
  }

  /** The number of clocks not later than x: where x belongs, after its equals. */
  function Place(clocks: seq<int>, x: int): (n: nat)
    ensures n <= |clocks|
  {
    if clocks == [] || clocks[0] > x then 0 else 1 + Place(clocks[1..], x)
  }

  // ----- words and clocks -----

  lemma LowDifference(a: int, b: int)
    ensures Low(Low(a) - Low(b)) == Low(a - b)
  {
    LowIsRemainder(a); LowIsRemainder(b); LowIsRemainder(a - b); LowIsRemainder(Low(a) - Low(b));
    assert a % TWO32 - b % TWO32 == a - b + (b / TWO32 - a / TWO32) * TWO32;
    WrapMultiple(a - b, b / TWO32 - a / TWO32);
  }

  lemma WordsOrderLikeClocks(a: int, b: int)
    requires -HALF < a - b < HALF
    ensures IsBefore(Low(a), Low(b)) <==> a < b
  {
    LowDifference(a, b);
  }

  /** Every word is before exactly one of the periodic timer and the sentinel. */
  lemma BeforeOneOfTwo(w: int, p: int)
    ensures IsBefore(w, Low(p)) <==> !IsBefore(w, Low(Low(p) + HALF))
  {
    LowAdds(p, HALF);
    SubLow(w, p);
    SubLow(w, p + HALF);
    HalfTurn(w - p);
  }

  lemma SubLow(w: int, p: int)
    ensures Low(w - Low(p)) == Low(w - p)
  {
    LowIsRemainder(p); LowIsRemainder(w - p); LowIsRemainder(w - Low(p));
    assert w - p % TWO32 == w - p + (p / TWO32) * TWO32;
    WrapMultiple(w - p, p / TWO32);
  }

  lemma HalfTurn(d: int)
    ensures Low(d) >= HALF <==> Low(d - HALF) < HALF
  {
    LowAdds(d, -HALF);
  }

  // ----- a search stops -----

  /** Whatever word is looked for, and whatever order the list is in, a search that starts before the periodic
      timer, or at it with a word that is not before it, stops by the sentinel at the end. */
  lemma SearchStops(words: seq<int>, p: nat, k: int, w: int)
    requires p + 1 < |words| && words[|words|-1] == Low(Low(words[p]) + HALF) && words[p] == Low(words[p])
    requires -1 <= k < |words| - 1 && (k < p || (k == p && !IsBefore(w, words[p])))
    ensures FirstAfter(words, k, w) < |words|
  {
    hide IsBefore;
    BeforeOneOfTwo(w, words[p]);
  }

  /** Whatever word is looked for, a search from the cached timer, which is not later, stops by the sentinel. */
  lemma CachedStops(rest: seq<int>, end: int, p: nat, k: nat, w: int)
    requires Orderly(rest, end, p) && k < |rest| && 0 <= w < TWO32
    requires !IsBefore(w, Low(rest[0])) && !IsBefore(w, Low(rest[k]))
    ensures FirstAfter(Words(rest + [end]), k, w) < |rest| + 1
  {
    var words := Words(rest + [end]);
    assert words[|rest|] == Low(end) && words[p] == Low(rest[p]);
    LowAdds(rest[p], HALF);
    BeforeOneOfTwo(w, rest[p]);
    if k >= p && IsBefore(w, words[p]) {
      assert Near(rest, rest[0]);
      BetweenNotBefore(rest[0], rest[p], rest[k], w);
    }
  }

  /** Of three clocks in order within half a turn, a word that is before the middle one is before the first or
      the last, too. */
  lemma BetweenNotBefore(a: int, b: int, c: int, w: int)
    requires a <= b <= c < a + HALF && 0 <= w < TWO32 && IsBefore(w, Low(b))
    ensures IsBefore(w, Low(a)) || IsBefore(w, Low(c))
  {
    hide Low, IsBefore;
    BeforeBy(w, b, 0);
    BeforeBy(w, b, b - a);
    BeforeBy(w, b, b - c);
    AroundHalf(Low(w - b), b - a, b - c);
  }

  lemma BeforeBy(w: int, b: int, e: int)
    ensures IsBefore(w, Low(b - e)) <==> Low(Low(w - b) + e) >= HALF
  {
    SubLow(w, b - e);
    LowAdds(w - b, e);
    assert w - (b - e) == w - b + e;
  }

  lemma AroundHalf(d: int, e: int, f: int)
    requires 0 <= d < TWO32 && Low(d + 0) >= HALF && f <= 0 <= e < f + HALF
    ensures Low(d + e) >= HALF || Low(d + f) >= HALF
  {
    hide Low;
    LowShift(d, 0);
    LowShift(d, e);
    LowShift(d, 0 - f);
    assert d - (0 - f) == d + f;
  }

  lemma LowShift(d: int, e: int)
    requires 0 <= d < TWO32 && 0 <= e < TWO32
    ensures Low(d + e) == if d + e < TWO32 then d + e else d + e - TWO32
    ensures Low(d - e) == if d >= e then d - e else d - e + TWO32
  {
  }

  // ----- the search -----

  lemma {:induction false} PlaceSplits(clocks: seq<int>, x: int)
    requires Sorted(clocks)
    ensures forall i :: 0 <= i < Place(clocks, x) ==> clocks[i] <= x
    ensures forall i :: Place(clocks, x) <= i < |clocks| ==> clocks[i] > x
  {
    if clocks != [] && clocks[0] <= x {
      PlaceSplits(clocks[1..], x);
      assert forall i :: 0 < i < |clocks| ==> clocks[i] == clocks[1..][i - 1];
    }
  }

  /** A search from outside, or from any timer not later than x, finds where x belongs and does not run off the list. */
  lemma SearchFindsPlace(clocks: seq<int>, s: int, k: int, x: int)
    requires Sorted(clocks) && Near(clocks, x) && -1 <= k < |clocks| && x < s && (k >= 0 ==> clocks[k] <= x)
    requires s - HALF <= x || s - HALF in clocks
    ensures FirstAfter(Words(clocks + [s]), k, Low(x)) == Place(clocks, x)
  {
    var words := Words(clocks + [s]);
    var n := Place(clocks, x);
    PlaceSplits(clocks, x);
    assert k < n;
    forall i | 0 <= i < |clocks| ensures IsBefore(Low(x), words[i]) <==> n <= i {
      WordsOrderLikeClocks(x, clocks[i]);
    }
    assert words[|clocks|] == Low(s);
    if n == |clocks| { SearchReachesSentinel(clocks, s, x); }
    StopsAt(words, k, Low(x), n);
  }

  /** A search stops at the first word that is later. */
  lemma StopsAt(words: seq<int>, k: int, w: int, n: nat)
    requires -1 <= k < n < |words| && IsBefore(w, words[n]) && forall i :: k < i < n ==> !IsBefore(w, words[i])
    ensures FirstAfter(words, k, w) == n
  {
    hide IsBefore;
    assert FirstAfter(words, k, w) <= n;
  }

  lemma SearchReachesSentinel(clocks: seq<int>, s: int, x: int)
    requires Sorted(clocks) && Near(clocks, x) && Place(clocks, x) == |clocks| && x < s
    requires s - HALF <= x || s - HALF in clocks
    ensures IsBefore(Low(x), Low(s))
  {
    PlaceSplits(clocks, x);
    LowDifference(x, s);
    assert s - HALF <= x;
  }

  /** The cached position does not matter: a search from there gives the same place as one from the head. */
  lemma CachedPositionIrrelevant(clocks: seq<int>, s: int, k: nat, x: int)
    requires Sorted(clocks) && Near(clocks, x) && k < |clocks| && clocks[k] <= x < s
    requires s - HALF <= x || s - HALF in clocks
    ensures FirstAfter(Words(clocks + [s]), k, Low(x)) == FirstAfter(Words(clocks + [s]), 0, Low(x))
  {
    SearchFindsPlace(clocks, s, k, x);
    SearchFindsPlace(clocks, s, 0, x);
  }

  // ----- keeping order -----

  function InsertAt<T>(s: seq<T>, j: nat, x: T): (r: seq<T>)
    requires j <= |s|
    ensures |r| == |s| + 1
  {
    s[..j] + [x] + s[j..]
  }

  lemma InsertSorted(clocks: seq<int>, x: int)
    requires Sorted(clocks)
    ensures Sorted(InsertAt(clocks, Place(clocks, x), x))
  {
    PlaceSplits(clocks, x);
  }

  lemma InsertSpan(clocks: seq<int>, j: nat, x: int)
    requires Span(clocks) && Near(clocks, x) && j <= |clocks|
    ensures Span(InsertAt(clocks, j, x))
  {
    var r := InsertAt(clocks, j, x);
    assert forall i :: 0 <= i < |r| ==> r[i] == x || exists k :: 0 <= k < |clocks| && r[i] == clocks[k] by {
      forall i | 0 <= i < |r| ensures r[i] == x || exists k :: 0 <= k < |clocks| && r[i] == clocks[k] {
        if i < j { assert r[i] == clocks[i]; } else if i > j { assert r[i] == clocks[i - 1]; }
      }
    }
  }

  /** Entry p is the periodic timer, with the sentinel half a turn after it. */
  ghost predicate Anchored(clocks: seq<int>, end: int, p: nat) {
    p < |clocks| && clocks[p] == end - HALF
  }

  /** A search from outside or from the head stops, in whatever order the list is. */
  lemma HeadSearchStops(clocks: seq<int>, end: int, p: nat, k: int, w: int)
    requires Anchored(clocks, end, p) && -1 <= k <= 0 && (k == 0 ==> !IsBefore(w, Low(clocks[0])))
    ensures FirstAfter(Words(clocks + [end]), k, w) <= |clocks|
  {
    var words := Words(clocks + [end]);
    assert words[|clocks|] == Low(end) && words[p] == Low(clocks[p]) && words[0] == Low(clocks[0]);
    LowAdds(clocks[p], HALF);
    LowAdds(Low(clocks[p]), HALF);
    LowAdds(clocks[p], 0);
    SearchStops(words, p, k, w);
  }

  /** The clocks of a list whose entry p is the periodic timer, in order and within half a turn. */
  ghost predicate Orderly(clocks: seq<int>, end: int, p: nat) {
    p < |clocks| && clocks[p] == end - HALF && Sorted(clocks) && Span(clocks)
  }

  lemma OrderlyInsert(clocks: seq<int>, end: int, p: nat, x: int)
    requires Orderly(clocks, end, p) && Near(clocks, x)
    ensures var n := Place(clocks, x); Orderly(InsertAt(clocks, n, x), end, if p < n then p else p + 1)
  {
    hide Sorted, Span, Near, Place;
    InsertSorted(clocks, x);
    InsertSpan(clocks, Place(clocks, x), x);
  }

  lemma OrderlyRemove(clocks: seq<int>, end: int, p: nat, i: nat)
    requires Orderly(clocks, end, p) && i < |clocks| && i != p
    ensures Orderly(clocks[..i] + clocks[i + 1..], end, if i < p then p - 1 else p)
  {
    var r := clocks[..i] + clocks[i + 1..];
    forall k | 0 <= k < |r| ensures r[k] == clocks[if k < i then k else k + 1] && Near(r, r[k]) {
      assert Near(clocks, clocks[if k < i then k else k + 1]);
    }
  }

  lemma OrderlyTail(clocks: seq<int>, end: int, p: nat)
    requires Orderly(clocks, end, p) && p > 0
    ensures Orderly(clocks[1..], end, p - 1)
  {
    hide Sorted, Span;
    OrderlyRemove(clocks, end, p, 0);
    assert clocks[..0] + clocks[1..] == clocks[1..];
  }

  lemma {:induction false} OrderlyDrop(clocks: seq<int>, end: int, p: nat, i: nat)
    requires Orderly(clocks, end, p) && i <= p
    ensures i <= |clocks| && Orderly(clocks[i..], end, p - i)
  {
    hide Sorted, Span;
    if i == 0 {
      assert clocks[0..] == clocks;
    } else {
      OrderlyDrop(clocks, end, p, i - 1);
      OrderlyTail(clocks[i - 1..], end, p - (i - 1));
      assert clocks[i - 1..][1..] == clocks[i..];
    }
  }

  lemma InOrderTail(clocks: seq<int>)
    requires clocks != [] && Sorted(clocks) && Span(clocks)
    ensures Sorted(clocks[1..]) && Span(clocks[1..])
  {
    var rest := clocks[1..];
    forall k | 0 <= k < |rest| ensures Near(rest, rest[k]) {
      assert Near(clocks, clocks[k + 1]);
    }
  }

  /** The timer at the head gets a new clock; the periodic timer takes the sentinel along. */
  lemma OrderlyMove(clocks: seq<int>, end: int, p: nat, x: int)
    requires Orderly(clocks, end, p) && Near(clocks[1..], x)
    requires p == 0 ==> clocks[0] <= x < clocks[0] + HALF
    ensures var n := Place(clocks[1..], x);
            Orderly(InsertAt(clocks[1..], n, x), if p == 0 then x + HALF else end, MovedPlace(p, n))
  {
    hide Sorted, Span, Near, Place;
    var rest := clocks[1..];
    InOrderTail(clocks);
    InsertSorted(rest, x);
    InsertSpan(rest, Place(rest, x), x);
  }

  function MovedPlace(p: nat, n: nat): nat {
    if p == 0 then n else if p - 1 < n then p - 1 else p
  }

  /** The periodic timer stays within half a turn of the others when it moves on. */
  lemma PeriodicNear(clocks: seq<int>, end: int, x: int)
    requires Orderly(clocks, end, 0) && clocks[0] <= x < clocks[0] + HALF
    ensures Near(clocks[1..], x)
  {
    assert Near(clocks, clocks[0]);
  }

  /** The sentinel is beyond the new clock, and its distance is right. */
  lemma SentinelBeyond(clocks: seq<int>, end: int, p: nat, x: int)
    requires Orderly(clocks, end, p) && Near(clocks[1..], x)
    ensures var end' := if p == 0 then x + HALF else end;
            x < end' && (end' - HALF <= x || end' - HALF in clocks[1..]) && Sorted(clocks[1..])
  {
    if p > 0 { assert clocks[1..][p - 1] == end - HALF; }
  }

  /** The comparison with the timer after the head decides whether the head stays. */
  lemma HeadDecides(rest: seq<int>, end: int, x: int)
    requires Sorted(rest) && Near(rest, x) && x < end && (rest == [] ==> end - HALF <= x)
    ensures IsBefore(Low(x), Words(rest + [end])[0]) <==> Place(rest, x) == 0
  {
    assert Words(rest + [end])[0] == Low((rest + [end])[0]);
    if rest == [] {
      LowDifference(x, end);
    } else {
      WordsOrderLikeClocks(x, rest[0]);
    }
  }

  /** The clock of a stand-in at the head: not later than the first, and within half a turn of all. */
  ghost predicate Standing(clocks: seq<int>, stand: int) {
    clocks != [] && stand <= clocks[0] && Near(clocks, stand)
  }

  lemma StandingInsert(clocks: seq<int>, stand: int, n: nat, x: int)
    requires Standing(clocks, stand) && n <= |clocks| && stand <= x < stand + HALF
    ensures Standing(InsertAt(clocks, n, x), stand)
  {
    var c := InsertAt(clocks, n, x);
    forall i | 0 <= i < |c| ensures -HALF < c[i] - stand < HALF {
      if i < n { assert c[i] == clocks[i]; } else if i > n { assert c[i] == clocks[i - 1]; }
    }
  }

  /** The first timer leaves and its clock stands in. */
  lemma StandingFirst(clocks: seq<int>, end: int, p: nat)
    requires Orderly(clocks, end, p) && p > 0
    ensures Standing(clocks[1..], clocks[0])
  {
    assert Near(clocks, clocks[0]);
  }

  /** Whatever the new clock of the head, the search for its place stops: k is where the cached timer is behind
      the head, or -1 if it is the head itself. */
  lemma AgainStops(clocks: seq<int>, end: int, p: nat, k: int, x: int)
    requires Orderly(clocks, end, p) && -1 <= k < |clocks| - 1
    requires k >= 0 ==> !IsBefore(Low(x), Low(clocks[1])) && !IsBefore(Low(x), Low(clocks[k + 1]))
    ensures FirstAfter(Words(clocks[1..] + [if p == 0 then x + HALF else end]), k, Low(x)) < |clocks|
  {
    hide IsBefore, Low, Span, Sorted, FirstAfter;
    var rest := clocks[1..];
    if p == 0 {
      assert Words(rest + [x + HALF])[|rest|] == Low(x + HALF);
      LaterByHalf(x);
    } else {
      OrderlyTail(clocks, end, p);
      if k < 0 {
        HeadSearchStops(rest, end, p - 1, k, Low(x));
      } else {
        CachedStops(rest, end, p - 1, k, Low(x));
      }
    }
  }

  lemma LaterByHalf(x: int)
    ensures IsBefore(Low(x), Low(x + HALF))
  {
    LowDifference(x, x + HALF);
  }

  lemma NotBeforeItself(x: int)
    ensures !IsBefore(Low(x), Low(x))
  {
  }
}
