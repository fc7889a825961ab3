/** Timers linked into a list. */
module TimerList {
  import opened Word32
  import opened TimerOrder

  class Timer {
    var waketime: int
    var next: Timer?

    constructor (waketime: int)
      ensures this.waketime == waketime && next == null
    {
      this.waketime, next := waketime, null;
    }
  }

  ghost predicate LinkAt(chain: seq<Timer>, i: int)
    reads chain
  {
    0 <= i < |chain| - 1 && chain[i].next == chain[i + 1]
  }

  /** The links run through the chain, and the last one is null. */
  ghost predicate Linked(chain: seq<Timer>)
    reads chain
  {
    chain != [] && chain[|chain|-1].next == null && forall i :: 0 <= i < |chain| - 1 ==> LinkAt(chain, i)
  }

  ghost predicate Distinct(chain: seq<Timer>) {
    forall i, j :: 0 <= i < j < |chain| ==> chain[i] != chain[j]
  }

  ghost predicate Woken(chain: seq<Timer>, words: seq<int>)
    reads chain
  {
    |chain| == |words| && forall i :: 0 <= i < |chain| ==> chain[i].waketime == words[i]
  }

  /** Finds the place of a timer in the list and links it in.  The search starts at pos, which is in the list or
      before it. */
  method InsertTimer(pos: Timer, t: Timer, waketime: int, ghost chain: seq<Timer>, ghost words: seq<int>, ghost k: int)
    requires Linked(chain) && Distinct(chain) && Woken(chain, words) && t !in chain && -1 <= k < |chain|
    requires if k >= 0 then chain[k] == pos else pos.next == chain[0] && pos !in chain
    requires FirstAfter(words, k, waketime) < |chain|
    requires pos == t ==> !IsBefore(waketime, words[0])
    modifies t, pos, chain
    ensures t.waketime == old(t.waketime) && pos.waketime == old(pos.waketime) && Woken(chain, words)
    ensures var c := InsertAt(chain, FirstAfter(words, k, waketime), t);
            && Linked(c) && Distinct(c) && (k < 0 && pos != t ==> pos.next == c[0])
            && c[0] == if FirstAfter(words, k, waketime) == 0 then t else chain[0]
  {
    hide IsBefore, InsertAt;
    ghost var j, i := FirstAfter(words, k, waketime), k;
    assert 0 <= k < |chain| - 1 ==> LinkAt(chain, k);
    var prev := pos;
    var cur := pos.next;
    while !IsBefore(waketime, cur.waketime)
      invariant k <= i < j && cur == chain[i + 1] && prev == if i < 0 then pos else chain[i]
      decreases j - i
    {
      assert LinkAt(chain, i + 1);
      prev := cur;
      cur := cur.next;
      i := i + 1;
    }
    t.next := cur;
    prev.next := t;
    forall i | 0 <= i < |chain| - 1 && i != j - 1 ensures LinkAt(chain, i) {
      assert old(LinkAt(chain, i));
    }
    Relinked(chain, t, j);
  }

  lemma Relinked(chain: seq<Timer>, t: Timer, j: nat)
    requires Distinct(chain) && j < |chain| && t !in chain && t.next == chain[j] && chain[|chain|-1].next == null
    requires j > 0 ==> chain[j - 1].next == t
    requires forall i :: 0 <= i < |chain| - 1 && i != j - 1 ==> LinkAt(chain, i)
    ensures Linked(InsertAt(chain, j, t)) && Distinct(InsertAt(chain, j, t))
    ensures InsertAt(chain, j, t)[0] == if j == 0 then t else chain[0]
  {
    var c := InsertAt(chain, j, t);
    forall i | 0 <= i < |c| - 1 ensures LinkAt(c, i) {
      if i < j - 1 { assert LinkAt(chain, i); } else if i > j { assert LinkAt(chain, i - 1); }
    }
  }

  function Without<T>(s: seq<T>, i: nat): (r: seq<T>)
    requires i < |s|
    ensures |r| == |s| - 1 && forall k :: 0 <= k < |r| ==> r[k] == s[if k < i then k else k + 1]
  {
    s[..i] + s[i + 1..]
  }

  /** Takes a timer out of the list, if it is there; returns where it was, or the length.  The walk starts at
      the head or before it. */
  method Unlink(head: Timer, del: Timer, ghost chain: seq<Timer>, ghost words: seq<int>) returns (ghost at: nat)
    requires Linked(chain) && Distinct(chain) && Woken(chain, words) && 1 < |chain| && del != head
    requires chain[0] == head || (head !in chain && head.next == chain[0])
    modifies head, chain
    ensures at <= |chain| && head.waketime == old(head.waketime) && Woken(chain, words)
    ensures at == |chain| ==> del !in chain && Linked(chain) && (head !in chain ==> head.next == chain[0])
    ensures at < |chain| ==> chain[at] == del && Linked(Without(chain, at)) && Distinct(Without(chain, at))
    ensures at < |chain| ==> (if head in chain then head else head.next) == Without(chain, at)[0]
  {
    at := if head in chain then 1 else 0;
    var pos := head;
    assert chain[0] == head && 1 < |chain| ==> LinkAt(chain, 0);
    while pos.next != null
      invariant at <= |chain| && del !in chain[..at]
      invariant (if at == 0 then pos == head && head !in chain else pos == chain[at - 1])
      invariant pos.next == if at < |chain| then chain[at] else null
      invariant forall x :: x in chain || x == head ==> x.next == old(x.next) && x.waketime == old(x.waketime)
      decreases |chain| - at
    {
      if pos.next == del {
        assert at + 1 < |chain| ==> LinkAt(chain, at);
        pos.next := del.next;
        forall i | 0 <= i < |chain| - 1 && i != at - 1 ensures LinkAt(chain, i) {
          assert old(LinkAt(chain, i));
        }
        Spliced(chain, at);
        return;
      }
      assert at + 1 < |chain| ==> LinkAt(chain, at);
      pos := pos.next;
      at := at + 1;
    }
    forall i | 0 <= i < |chain| - 1 ensures LinkAt(chain, i) {
      assert old(LinkAt(chain, i));
    }
  }

  lemma Spliced(chain: seq<Timer>, at: nat)
    requires Distinct(chain) && at < |chain| && 1 < |chain| && chain[|chain|-1].next == null
    requires at > 0 ==> chain[at - 1].next == chain[at].next
    requires forall i :: 0 <= i < |chain| - 1 && i != at - 1 ==> LinkAt(chain, i)
    ensures Linked(Without(chain, at)) && Distinct(Without(chain, at))
    ensures at == 0 ==> chain[0].next == Without(chain, at)[0]
  {
    var c := Without(chain, at);
    assert at + 1 < |chain| ==> LinkAt(chain, at);
    forall i | 0 <= i < |c| - 1 ensures LinkAt(c, i) {
      if i < at - 1 { assert LinkAt(chain, i); } else if i >= at { assert LinkAt(chain, i + 1); }
    }
  }

  /** A linked chain whose timers wake at their clocks, the sentinel half a turn after the periodic timer. */
  ghost predicate Fits(chain: seq<Timer>, clocks: seq<int>, end: int, p: nat)
    reads chain
  {
    Linked(chain) && Distinct(chain) && Woken(chain, Words(clocks + [end])) && Anchored(clocks, end, p)
  }

  lemma FitsAt(chain: seq<Timer>, clocks: seq<int>, end: int, p: nat, i: nat)
    requires Fits(chain, clocks, end, p) && i < |chain|
    ensures |chain| == |clocks| + 1 && chain[i].waketime == Low(if i < |clocks| then clocks[i] else end)
    ensures chain[i].next == if i == |clocks| then null else chain[i + 1]
  {
    hide Anchored, Low;
    var words := Words(clocks + [end]);
    assert words[i] == Low((clocks + [end])[i]);
    if i < |clocks| { assert LinkAt(chain, i); }
  }

  lemma FitsTail(chain: seq<Timer>, clocks: seq<int>, end: int, p: nat)
    requires Fits(chain, clocks, end, p) && p > 0
    ensures Fits(chain[1..], clocks[1..], end, p - 1)
  {
    hide Low;
    var c, w := chain[1..], Words(clocks + [end]);
    assert clocks[1..] + [end] == (clocks + [end])[1..];
    assert Words(clocks[1..] + [end]) == w[1..];
    forall i | 0 <= i < |c| - 1 ensures LinkAt(c, i) {
      assert LinkAt(chain, i + 1);
    }
  }

  lemma FitsFront(chain: seq<Timer>, clocks: seq<int>, end: int, p: nat, t: Timer, x: int)
    requires Fits(chain, clocks, end, p) && t !in chain && t.next == chain[0] && t.waketime == Low(x)
    ensures Fits([t] + chain, [x] + clocks, end, p + 1)
  {
    hide Low;
    var c, w := [t] + chain, Words(clocks + [end]);
    assert [x] + clocks + [end] == [x] + (clocks + [end]);
    assert Words([x] + clocks + [end]) == [Low(x)] + w;
    forall i | 0 <= i < |c| - 1 ensures LinkAt(c, i) {
      if i > 0 { assert LinkAt(chain, i - 1); }
    }
  }

  /** Waketimes go along when a timer is put in. */
  lemma WokenInsert(chain: seq<Timer>, clocks: seq<int>, end: int, n: nat, t: Timer, x: int)
    requires |chain| == |clocks| + 1 && n <= |clocks| && Woken(chain, Words(clocks + [end])) && t.waketime == Low(x)
    ensures Woken(InsertAt(chain, n, t), Words(InsertAt(clocks, n, x) + [end]))
  {
    hide Low;
    var c, l := InsertAt(chain, n, t), InsertAt(clocks, n, x) + [end];
    var w, old_w := Words(l), Words(clocks + [end]);
    forall i | 0 <= i < |c| ensures c[i].waketime == w[i] {
      if i < n {
        assert c[i] == chain[i] && l[i] == (clocks + [end])[i];
      } else if i > n {
        assert c[i] == chain[i - 1] && l[i] == (clocks + [end])[i - 1];
      }
    }
  }

  /** A timer was linked in at place n. */
  lemma FitsInserted(chain: seq<Timer>, clocks: seq<int>, end: int, p: nat, n: nat, t: Timer, x: int)
    requires |chain| == |clocks| + 1 && Woken(chain, Words(clocks + [end])) && Anchored(clocks, end, p)
    requires n <= |clocks| && t.waketime == Low(x) && Linked(InsertAt(chain, n, t)) && Distinct(InsertAt(chain, n, t))
    ensures Fits(InsertAt(chain, n, t), InsertAt(clocks, n, x), end, if p < n then p else p + 1)
  {
    hide Low, Linked, Distinct, Woken;
    WokenInsert(chain, clocks, end, n, t, x);
  }

  /** The head was moved to place n behind it. */
  lemma FitsMoved(chain: seq<Timer>, clocks: seq<int>, end: int, p: nat, n: nat, x: int, end': int)
    requires |chain| == |clocks| + 1 && Anchored(clocks, end, p) && n < |clocks|
    requires end' == if p == 0 then x + HALF else end
    requires chain[0].waketime == Low(x) && Woken(chain[1..], Words(clocks[1..] + [end']))
    requires var c := InsertAt(chain[1..], n, chain[0]); Linked(c) && Distinct(c)
    ensures Fits(InsertAt(chain[1..], n, chain[0]), InsertAt(clocks[1..], n, x), end', MovedPlace(p, n))
  {
    hide Low, Linked, Distinct, Woken;
    WokenInsert(chain[1..], clocks[1..], end', n, chain[0], x);
  }

  /** The list from place i on. */
  lemma FitsDrop(chain: seq<Timer>, clocks: seq<int>, end: int, p: nat, i: nat)
    requires Fits(chain, clocks, end, p) && i <= p
    ensures |chain| == |clocks| + 1 && Fits(chain[i..], clocks[i..], end, p - i)
  {
    hide Low;
    var c, l := chain[i..], clocks[i..] + [end];
    assert forall j :: 0 <= j < |l| ==> l[j] == (clocks + [end])[i + j];
    forall j | 0 <= j < |c| - 1 ensures LinkAt(c, j) {
      assert LinkAt(chain, i + j);
    }
  }

  // ----- where the special timers are -----

  /** The sentinel is last, the periodic timer is at p, the cached timer is one of those waiting, the stand-in
      is not. */
  ghost predicate PlacedIn(chain: seq<Timer>, n: nat, p: nat, periodic: Timer, sentinel: Timer, deleted: Timer,
                           cached: Timer) {
    |chain| == n + 1 && p < n && chain[n] == sentinel && chain[p] == periodic
    && cached in chain[..n] && deleted !in chain
  }

  lemma PlacedInsert(chain: seq<Timer>, n: nat, p: nat, periodic: Timer, sentinel: Timer, deleted: Timer,
                     cached: Timer, at: nat, t: Timer)
    requires PlacedIn(chain, n, p, periodic, sentinel, deleted, cached) && at <= n && t != deleted
    ensures PlacedIn(InsertAt(chain, at, t), n + 1, if p < at then p else p + 1, periodic, sentinel, deleted, cached)
  {
    var i :| 0 <= i < n && chain[i] == cached;
    var c := InsertAt(chain, at, t);
    assert c[if i < at then i else i + 1] == cached;
    assert c[..n + 1][if i < at then i else i + 1] == cached;
  }

  /** A stand-in at the head points to the first timer. */
  ghost predicate StandsIn(deleted: Timer, chain: seq<Timer>, stand: int)
    reads deleted
  {
    chain != [] && deleted.next == chain[0] && deleted.waketime == Low(stand)
  }

  lemma FitsRemoved(chain: seq<Timer>, clocks: seq<int>, end: int, p: nat, i: nat)
    requires |chain| == |clocks| + 1 && Woken(chain, Words(clocks + [end])) && Anchored(clocks, end, p) && i < |clocks|
    requires i != p
    requires Linked(Without(chain, i)) && Distinct(Without(chain, i))
    ensures Fits(Without(chain, i), Without(clocks, i), end, if i < p then p - 1 else p)
  {
    hide Low, Linked, Distinct;
    var c, l := Without(chain, i), Without(clocks, i) + [end];
    var w := Words(l);
    forall k | 0 <= k < |c| ensures c[k].waketime == w[k] {
      assert l[k] == (clocks + [end])[if k < i then k else k + 1];
    }
  }

  lemma PlacedRemove(chain: seq<Timer>, n: nat, p: nat, periodic: Timer, sentinel: Timer, deleted: Timer,
                     cached: Timer, i: nat)
    requires PlacedIn(chain, n, p, periodic, sentinel, deleted, cached) && i < n && i != p && cached != chain[i]
    ensures PlacedIn(Without(chain, i), n - 1, if i < p then p - 1 else p, periodic, sentinel, deleted, cached)
  {
    var k :| 0 <= k < n && chain[k] == cached;
    var c := Without(chain, i);
    assert c[..n - 1][if k < i then k else k - 1] == cached;
  }

  lemma WithoutGone(chain: seq<Timer>, i: nat)
    requires Distinct(chain) && i < |chain|
    ensures chain[i] !in Without(chain, i)
  {
  }

  lemma PlacedDrop(chain: seq<Timer>, n: nat, p: nat, periodic: Timer, sentinel: Timer, deleted: Timer,
                   cached: Timer, i: nat)
    requires PlacedIn(chain, n, p, periodic, sentinel, deleted, cached) && i <= p && cached !in chain[..i]
    ensures PlacedIn(chain[i..], n - i, p - i, periodic, sentinel, deleted, cached)
  {
    var k :| 0 <= k < n && chain[k] == cached;
    assert forall j :: 0 <= j < i ==> chain[j] == chain[..i][j];
    assert chain[i..][..n - i][k - i] == cached;
  }

  lemma TailOfDrop<T>(s: seq<T>, i: nat)
    requires i < |s|
    ensures s[i..][1..] == s[i + 1..] && s[0..] == s && forall u :: u in s[i + 1..] ==> u in s[i..]
  {
    assert s[i..] == [s[i]] + s[i + 1..];
  }

  lemma MovedWithin(chain: seq<Timer>, i: nat, n: nat)
    requires i < |chain| && n <= |chain| - i - 1
    ensures forall u :: u in InsertAt(chain[i + 1..], n, chain[i]) ==> u in chain[i..]
  {
    var rest := chain[i + 1..];
    assert chain[i..] == [chain[i]] + rest;
    assert rest == rest[..n] + rest[n..];
  }

  /** A list that holds only timers from place i on has lost those in front. */
  lemma FrontLost(chain: seq<Timer>, i: nat, left: seq<Timer>)
    requires Distinct(chain) && 0 < i < |chain| && forall u :: u in left ==> u in chain[i..]
    ensures chain[0] in chain[..i] && chain[0] !in left
  {
    assert chain[..i][0] == chain[0];
    assert forall j :: 0 <= j < |chain[i..]| ==> chain[i..][j] == chain[i + j];
  }

  /** The cached timer may be any of those waiting. */
  lemma PlacedCache(chain: seq<Timer>, n: nat, p: nat, periodic: Timer, sentinel: Timer, deleted: Timer,
                    cached: Timer, i: nat)
    requires PlacedIn(chain, n, p, periodic, sentinel, deleted, cached) && i < n
    ensures PlacedIn(chain, n, p, periodic, sentinel, deleted, chain[i])
  {
    assert chain[..n][i] == chain[i];
  }

  /** What taking a timer out of the list means. */
  ghost predicate TakenOut(chain: seq<Timer>, clocks: seq<int>, del: Timer, chain': seq<Timer>, clocks': seq<int>) {
    if del in chain then exists i :: 0 <= i < |chain| && TakenAt(chain, clocks, del, i, chain', clocks')
    else chain' == chain && clocks' == clocks
  }

  ghost predicate TakenAt(chain: seq<Timer>, clocks: seq<int>, del: Timer, i: nat, chain': seq<Timer>,
                          clocks': seq<int>) {
    i < |chain| && i < |clocks| && chain[i] == del && chain' == Without(chain, i) && clocks' == Without(clocks, i)
  }

  lemma HeadTaken(chain: seq<Timer>, clocks: seq<int>)
    requires Distinct(chain) && chain != [] && clocks != []
    ensures chain[0] !in chain[1..] && TakenOut(chain, clocks, chain[0], chain[1..], clocks[1..])
  {
    assert TakenAt(chain, clocks, chain[0], 0, chain[1..], clocks[1..]);
  }

  lemma HeadPlaced(chain: seq<Timer>, n: nat, p: nat, periodic: Timer, sentinel: Timer, deleted: Timer, cached: Timer)
    requires PlacedIn(chain, n, p, periodic, sentinel, deleted, cached) && p > 0 && cached != chain[0]
    ensures PlacedIn(chain[1..], n - 1, p - 1, periodic, sentinel, deleted, cached)
  {
    PlacedRemove(chain, n, p, periodic, sentinel, deleted, cached, 0);
    assert Without(chain, 0) == chain[1..];
  }

  /** The first timer is taken out and the stand-in takes its place. */
  lemma HeadReplaced(chain: seq<Timer>, clocks: seq<int>, end: int, p: nat,
                     periodic: Timer, sentinel: Timer, deleted: Timer, cached: Timer)
    requires Fits(chain, clocks, end, p) && PlacedIn(chain, |clocks|, p, periodic, sentinel, deleted, cached) && p > 0
    requires cached != chain[0] && deleted.next == chain[0].next && deleted.waketime == chain[0].waketime
    ensures Fits(chain[1..], clocks[1..], end, p - 1) && StandsIn(deleted, chain[1..], clocks[0])
    ensures PlacedIn(chain[1..], |clocks| - 1, p - 1, periodic, sentinel, deleted, cached)
    ensures chain[0] !in chain[1..] && TakenOut(chain, clocks, chain[0], chain[1..], clocks[1..])
  {
    hide Linked, Distinct, Woken, TakenOut;
    FitsAt(chain, clocks, end, p, 0);
    FitsTail(chain, clocks, end, p);
    HeadTaken(chain, clocks);
    HeadPlaced(chain, |clocks|, p, periodic, sentinel, deleted, cached);
  }

  /** A timer behind the head is taken out. */
  lemma TimerRemoved(chain: seq<Timer>, clocks: seq<int>, end: int, p: nat,
                     periodic: Timer, sentinel: Timer, deleted: Timer, cached: Timer, i: nat)
    requires |chain| == |clocks| + 1 && Distinct(chain) && Woken(chain, Words(clocks + [end]))
    requires Anchored(clocks, end, p)
    requires PlacedIn(chain, |clocks|, p, periodic, sentinel, deleted, cached)
    requires i < |chain| && chain[i] != periodic && chain[i] != sentinel && chain[i] != cached
    requires Linked(Without(chain, i)) && Distinct(Without(chain, i))
    ensures i < |clocks| && i != p
    ensures Fits(Without(chain, i), Without(clocks, i), end, if i < p then p - 1 else p)
    ensures PlacedIn(Without(chain, i), |clocks| - 1, if i < p then p - 1 else p, periodic, sentinel, deleted, cached)
    ensures chain[i] !in Without(chain, i) && TakenOut(chain, clocks, chain[i], Without(chain, i), Without(clocks, i))
  {
    hide Low, Linked, Woken;
    FitsRemoved(chain, clocks, end, p, i);
    PlacedRemove(chain, |clocks|, p, periodic, sentinel, deleted, cached, i);
    WithoutGone(chain, i);
    assert TakenAt(chain, clocks, chain[i], i, Without(chain, i), Without(clocks, i));
  }

  lemma NothingTaken(chain: seq<Timer>, clocks: seq<int>, del: Timer)
    requires del !in chain
    ensures TakenOut(chain, clocks, del, chain, clocks)
  {
  }

  // ----- moving the head -----

  lemma PlacedMoved(chain: seq<Timer>, n: nat, p: nat, periodic: Timer, sentinel: Timer, deleted: Timer,
                    cached: Timer, m: nat)
    requires PlacedIn(chain, n, p, periodic, sentinel, deleted, cached) && m < n
    ensures PlacedIn(InsertAt(chain[1..], m, chain[0]), n, MovedPlace(p, m), periodic, sentinel, deleted, chain[0])
  {
    var c := InsertAt(chain[1..], m, chain[0]);
    assert forall i :: 0 <= i < |c| ==> c[i] == chain[if i < m then i + 1 else if i == m then 0 else i];
    assert c[..n][m] == chain[0];
  }

  lemma WokenAt(chain: seq<Timer>, clocks: seq<int>, end: int, i: nat)
    requires Woken(chain, Words(clocks + [end])) && i <= |clocks|
    ensures |chain| == |clocks| + 1 && chain[i].waketime == Low(if i < |clocks| then clocks[i] else end)
  {
    assert Words(clocks + [end])[i] == Low((clocks + [end])[i]);
  }

  lemma WokenAll(chain: seq<Timer>, clocks: seq<int>, end: int)
    requires |chain| == |clocks| + 1 && chain[|clocks|].waketime == Low(end)
    requires forall i :: 0 <= i < |clocks| ==> chain[i].waketime == Low(clocks[i])
    ensures Woken(chain, Words(clocks + [end]))
  {
    hide Low;
  }

  lemma PlacedPeriodic(chain: seq<Timer>, n: nat, p: nat, periodic: Timer, sentinel: Timer, deleted: Timer,
                       cached: Timer)
    requires PlacedIn(chain, n, p, periodic, sentinel, deleted, cached)
    ensures PlacedIn(chain, n, p, periodic, sentinel, deleted, periodic)
  {
    PlacedCache(chain, n, p, periodic, sentinel, deleted, cached, p);
  }

  /** The links behind the head. */
  lemma LinkedRest(chain: seq<Timer>)
    requires Linked(chain) && Distinct(chain) && 1 < |chain|
    ensures Linked(chain[1..]) && Distinct(chain[1..]) && chain[0] !in chain[1..] && chain[0].next == chain[1]
  {
    assert LinkAt(chain, 0);
    var c := chain[1..];
    forall i | 0 <= i < |c| - 1 ensures LinkAt(c, i) {
      assert LinkAt(chain, i + 1);
    }
  }

  lemma HeadStays(t: Timer, rest: seq<Timer>)
    requires Linked(rest) && Distinct(rest) && t !in rest && t.next == rest[0]
    ensures InsertAt(rest, 0, t) == [t] + rest && Linked([t] + rest) && Distinct([t] + rest)
  {
    var c := [t] + rest;
    forall i | 0 <= i < |c| - 1 ensures LinkAt(c, i) {
      if i > 0 { assert LinkAt(rest, i - 1); }
    }
  }

  /** Where the cached timer is behind the head, or -1 when it is the head. */
  lemma CachedBehind(chain: seq<Timer>, n: nat, p: nat, periodic: Timer, sentinel: Timer, deleted: Timer,
                     cached: Timer) returns (k: int)
    requires PlacedIn(chain, n, p, periodic, sentinel, deleted, cached)
    ensures |chain| == n + 1 && -1 <= k < n - 1 && cached == if k < 0 then chain[0] else chain[1..][k]
  {
    var i :| 0 <= i < n && chain[i] == cached;
    k := i - 1;
  }

  /** The cached timer stays where it is when the head stays the head. */
  lemma PlacedStays(chain: seq<Timer>, n: nat, p: nat, periodic: Timer, sentinel: Timer, deleted: Timer, cached: Timer)
    requires PlacedIn(chain, n, p, periodic, sentinel, deleted, cached)
    ensures n > 0 && chain == [chain[0]] + chain[1..] && MovedPlace(p, 0) == p
  {
  }
}
