/**
 The timer list of the micro-controller.

 The list ends in a sentinel that is kept half a turn of the clock after a periodic timer,
 so that a search for a place always stops.  The head may be a stand-in for a deleted timer.

 `Valid` is about the links: it holds whatever the wake times are.  `Ordered` says that the
 list is sorted and spans less than half a turn; wake times that are near the others keep
 it so.
 */
module Sched {
  import opened Word32
  import opened TimerOrder
  import opened TimerList

  /** The cached timer is at place c behind the head of the chain, or is the head. */
  ghost predicate CachedAt(chain: seq<Timer>, n: nat, c: int, cached: Timer) {
    -1 <= c < n - 1 && c + 1 < |chain| && chain[c + 1] == cached
  }

  /** The search for the new place of the head starts behind the cached timer unless that is later. */
  ghost function StartOf(clocks: seq<int>, c: int, x: int): int
    requires -1 <= c < |clocks| - 1
  {
    if c >= 0 && IsBefore(Low(x), Low(clocks[c + 1])) then 0 else c
  }

  /** The word behind the head says that the head stays with clock x. */
  ghost predicate Stays(clocks: seq<int>, end: int, x: int)
    requires clocks != []
  {
    IsBefore(Low(x), Words(clocks[1..] + [end])[0])
  }

  /** The search for the new place of the head meets a timer that is later. */
  ghost predicate SearchEnds(chain: seq<Timer>, clocks: seq<int>, end: int, cached: Timer, x: int)
    requires clocks != []
  {
    forall c :: CachedAt(chain, |clocks|, c, cached) ==>
      FirstAfter(Words(clocks[1..] + [end]), StartOf(clocks, c, x), Low(x)) < |clocks|
  }

  class Scheduler {
    const periodic: Timer
    const sentinel: Timer
    const deleted: Timer
    const period: nat
    var timerList: Timer
    var lastInsert: Timer
    ghost var chain: seq<Timer>   // the timers waiting, without the stand-in, up to the sentinel
    ghost var clocks: seq<int>    // the full clocks of all but the sentinel
    ghost var end: int            // that of the sentinel
    ghost var stand: int          // that of the stand-in, while it is in use
    ghost var p: nat              // where the periodic timer is

    ghost predicate Placed()
      reads this
    {
      PlacedIn(chain, |clocks|, p, periodic, sentinel, deleted, lastInsert) && 0 < period < HALF
    }

    ghost predicate Headed()
      reads this, deleted
    {
      chain != [] && if timerList == deleted then StandsIn(deleted, chain, stand) else timerList == chain[0]
    }

    /** The links run from the head to the sentinel, which is half a turn after the periodic timer. */
    ghost predicate Valid()
      reads this, deleted, chain
    {
      Fits(chain, clocks, end, p) && Placed() && Headed()
    }

    /** The timers are sorted and within half a turn. */
    ghost predicate Ordered()
      reads this
    {
      Orderly(clocks, end, p) && (timerList == deleted ==> Standing(clocks, stand))
    }

    /** The clock of the head, stand-in or not. */
    ghost function HeadClock(): int
      requires clocks != []
      reads this
    {
      if timerList == deleted then stand else clocks[0]
    }

    constructor (periodic: Timer, sentinel: Timer, deleted: Timer, period: nat)
      requires periodic != sentinel && periodic != deleted && sentinel != deleted && 0 < period < HALF
      requires periodic.waketime == 0 && sentinel.waketime == HALF && periodic.next == sentinel && sentinel.next == null
      ensures Valid() && Ordered() && chain == [periodic, sentinel] && clocks == [0] && end == HALF
    {
      this.periodic, this.sentinel, this.deleted, this.period := periodic, sentinel, deleted, period;
      timerList, lastInsert := periodic, periodic;
      chain, clocks, end, stand, p := [periodic, sentinel], [0], HALF, 0, 0;
      new;
      assert LinkAt(chain, 0);
      assert chain[..1] == [periodic];
    }

    lemma Shape()
      requires Valid()
      ensures |chain| == |clocks| + 1 && p < |clocks| && deleted !in chain && chain[0] != deleted
      ensures chain[p] == periodic && lastInsert != deleted
      ensures timerList.waketime == Low(HeadClock())
      ensures timerList == deleted ==> deleted.next == chain[0]
    {
      hide Low, Linked, Distinct;
      FitsAt(chain, clocks, end, p, 0);
    }

    // ----- adding -----

    /** Puts a timer in front of all others, under the stand-in. */
    method AddFront(t: Timer, ghost clock: int)
      requires Valid() && t !in chain && t != deleted && t.waketime == Low(clock)
      modifies this, t, deleted
      ensures Valid() && chain == InsertAt(old(chain), 0, t) && clocks == InsertAt(old(clocks), 0, clock)
      ensures end == old(end) && timerList == deleted && stand == clock && p == old(p) + 1
    {
      hide Fits, Low, PlacedIn;
      Shape();
      if timerList == deleted {
        t.next := deleted.next;
      } else {
        t.next := timerList;
      }
      deleted.waketime := t.waketime;
      deleted.next := t;
      timerList := deleted;
      FitsFront(chain, clocks, end, p, t, clock);
      PlacedInsert(chain, |clocks|, p, periodic, sentinel, deleted, lastInsert, 0, t);
      assert InsertAt(chain, 0, t) == [t] + chain && InsertAt(clocks, 0, clock) == [clock] + clocks;
      chain, clocks, stand, p := [t] + chain, [clock] + clocks, clock, p + 1;
    }

    /** Where a search from the head stops. */
    ghost function Found(clock: int): nat
      requires clocks != []
      reads this
    {
      FirstAfter(Words(clocks + [end]), if timerList == deleted then -1 else 0, Low(clock))
    }

    /** Puts a timer among the others, searching from the head; the search stops, whatever the wake time. */
    method AddBehind(t: Timer, ghost clock: int)
      requires Valid() && t !in chain && t != deleted && t.waketime == Low(clock) && clocks != []
      requires !IsBefore(Low(clock), Low(HeadClock()))
      modifies this, t, deleted, chain
      ensures Valid() && end == old(end) && timerList == old(timerList) && stand == old(stand)
      ensures var n := old(Found(clock));
              && n <= |old(clocks)| && chain == InsertAt(old(chain), n, t) && clocks == InsertAt(old(clocks), n, clock)
              && p == if old(p) < n then old(p) else old(p) + 1
    {
      hide Low, Linked, Distinct, InsertAt, Woken, FirstAfter, Words, IsBefore, LinkAt;
      Shape();
      ghost var n, k := Found(clock), if timerList == deleted then -1 else 0;
      HeadSearchStops(clocks, end, p, k, Low(clock));
      InsertTimer(timerList, t, t.waketime, chain, Words(clocks + [end]), k);
      FitsInserted(chain, clocks, end, p, n, t, clock);
      PlacedInsert(chain, |clocks|, p, periodic, sentinel, deleted, lastInsert, n, t);
      chain, clocks, p := InsertAt(chain, n, t), InsertAt(clocks, n, clock), if p < n then p else p + 1;
    }

    /** A clock near those of the waiting timers and of the head. */
    ghost predicate NearAll(clock: int)
      reads this
    {
      clocks != [] && Near(clocks, clock) && -HALF < HeadClock() - clock < HALF
    }

    lemma FrontOrdered(clock: int)
      requires Ordered() && NearAll(clock) && clock < HeadClock()
      ensures Place(clocks, clock) == 0 && Orderly(InsertAt(clocks, 0, clock), end, p + 1)
      ensures Standing(InsertAt(clocks, 0, clock), clock)
    {
      hide Orderly, Span, Sorted;
      OrderlyInsert(clocks, end, p, clock);
    }

    lemma BehindOrdered(clock: int)
      requires Ordered() && NearAll(clock) && HeadClock() <= clock
      ensures var n := Place(clocks, clock);
              && Found(clock) == n && Orderly(InsertAt(clocks, n, clock), end, if p < n then p else p + 1)
              && (timerList == deleted ==> Standing(InsertAt(clocks, n, clock), stand))
    {
      hide InsertAt, Near, Span, Place, FirstAfter, Words;
      assert clocks[p] == end - HALF;
      SentinelLater(clocks, end, p, clock);
      SearchFindsPlace(clocks, end, if timerList == deleted then -1 else 0, clock);
      OrderlyInsert(clocks, end, p, clock);
      if timerList == deleted { StandingInsert(clocks, stand, Place(clocks, clock), clock); }
    }

    /**
     Schedules a timer at any wake time: it is linked in before the sentinel, at place n, and
     nothing else changes.  When the wake time is near the others the list stays sorted.
     False is the shutdown for a timer that comes too late.
     */
    method AddTimer(t: Timer, ghost clock: int, now: int, down: bool) returns (ok: bool, ghost n: nat)
      requires Valid() && t !in chain && t != deleted && t.waketime == Low(clock)
      modifies this, t, deleted, chain
      ensures Valid() && end == old(end)
      ensures ok ==>
        n <= |old(clocks)| && chain == InsertAt(old(chain), n, t) && clocks == InsertAt(old(clocks), n, clock)
      ensures ok <==> down || !(IsBefore(old(t.waketime), now) && IsBefore(old(t.waketime), old(timerList.waketime)))
      ensures !ok ==> chain == old(chain) && clocks == old(clocks) && timerList == old(timerList)
      ensures old(Ordered() && NearAll(clock)) ==> Ordered() && (ok ==> n == Place(old(clocks), clock))
      ensures old(Ordered() && NearAll(clock)) && !ok ==> clock < old(HeadClock())
    {
      hide Low, Fits, Near, PlacedIn, StandsIn, IsBefore, InsertAt, FirstAfter, Place, Orderly, Standing;
      Shape();
      ghost var orderly := Ordered() && NearAll(clock);
      if orderly {
        WordsOrderLikeClocks(clock, HeadClock());
        if clock < HeadClock() { FrontOrdered(clock); } else { BehindOrdered(clock); }
      }
      n := 0;
      if IsBefore(t.waketime, timerList.waketime) {
        if IsBefore(t.waketime, now) && !down { return false, n; }
        AddFront(t, clock);
      } else {
        n := Found(clock);
        AddBehind(t, clock);
      }
      ok := true;
    }

    // ----- deleting -----

    method DeleteHead()
      requires Valid() && timerList != deleted && timerList != periodic
      modifies this, deleted
      ensures Valid() && end == old(end) && old(timerList) !in chain && (old(Ordered()) ==> Ordered())
      ensures TakenOut(old(chain), old(clocks), old(timerList), chain, clocks)
      ensures clocks != [] && old(clocks) != [] && HeadClock() == old(HeadClock())
    {
      hide Fits, TakenOut, Orderly, Standing;
      Shape();
      if Ordered() {
        OrderlyTail(clocks, end, p);
        StandingFirst(clocks, end, p);
      }
      var del := timerList;
      deleted.waketime := del.waketime;
      deleted.next := del.next;
      timerList := deleted;
      if lastInsert == del {
        PlacedPeriodic(chain, |clocks|, p, periodic, sentinel, deleted, lastInsert);
        lastInsert := periodic;
      }
      HeadReplaced(chain, clocks, end, p, periodic, sentinel, deleted, lastInsert);
      stand := clocks[0];
      chain, clocks, p := chain[1..], clocks[1..], p - 1;
    }

    /** A timer has been unlinked: the rest hangs together. */
    ghost method Forget(i: nat)
      requires |chain| == |clocks| + 1 && Anchored(clocks, end, p) && Distinct(chain) && Placed()
      requires Woken(chain, Words(clocks + [end]))
      requires i < |chain| && chain[i] != periodic && chain[i] != sentinel && chain[i] != lastInsert
      requires Linked(Without(chain, i)) && Distinct(Without(chain, i))
      requires (if timerList == deleted then deleted.next else timerList) == Without(chain, i)[0]
      requires timerList == deleted ==> deleted.waketime == Low(stand)
      requires timerList != deleted ==> 0 < i
      modifies this`chain, this`clocks, this`p
      ensures Valid() && old(chain)[i] !in chain && (old(Ordered()) ==> Ordered())
      ensures clocks != [] && old(clocks) != [] && HeadClock() == old(HeadClock())
      ensures TakenOut(old(chain), old(clocks), old(chain)[i], chain, clocks)
    {
      hide Low, Linked, Distinct, Woken, Without, TakenOut, Words, Anchored, LinkAt, PlacedIn, Orderly, Standing;
      TimerRemoved(chain, clocks, end, p, periodic, sentinel, deleted, lastInsert, i);
      if Ordered() { RemovedOrdered(i); }
      if i > 0 { WithoutKeepsFirst(clocks, i); }
      FitsNonEmpty(Without(chain, i), Without(clocks, i), end, if i < p then p - 1 else p);
      chain, clocks, p := Without(chain, i), Without(clocks, i), if i < p then p - 1 else p;
    }

    lemma RemovedOrdered(i: nat)
      requires Ordered() && i < |clocks| && i != p
      ensures Orderly(Without(clocks, i), end, if i < p then p - 1 else p)
      ensures timerList == deleted ==> Standing(Without(clocks, i), stand)
    {
      OrderlyRemove(clocks, end, p, i);
    }

    method DeleteBehind(del: Timer)
      requires Valid() && del != timerList && del != deleted && del != periodic && del != sentinel
      modifies this, deleted, chain
      ensures Valid() && end == old(end) && del !in chain && (old(Ordered()) ==> Ordered())
      ensures TakenOut(old(chain), old(clocks), del, chain, clocks)
      ensures clocks != [] && old(clocks) != [] && HeadClock() == old(HeadClock())
    {
      hide Low, Linked, Distinct, Woken, Without, TakenOut, Words, Anchored, LinkAt, PlacedIn, Orderly, Standing;
      Shape();
      ghost var i := Unlink(timerList, del, chain, Words(clocks + [end]));
      if lastInsert == del {
        PlacedPeriodic(chain, |clocks|, p, periodic, sentinel, deleted, lastInsert);
        lastInsert := periodic;
      }
      if i < |chain| {
        Forget(i);
      } else {
        NothingTaken(chain, clocks, del);
      }
    }

    /** Removes a timer that may be waiting.  The clock of the head stays as it is. */
    method DeleteTimer(del: Timer)
      requires Valid() && del != deleted && del != periodic && del != sentinel
      modifies this, deleted, chain
      ensures Valid() && end == old(end) && del !in chain && (old(Ordered()) ==> Ordered())
      ensures TakenOut(old(chain), old(clocks), del, chain, clocks)
      ensures clocks != [] && old(clocks) != [] && HeadClock() == old(HeadClock())
    {
      hide Fits, PlacedIn, StandsIn, TakenOut, Orderly, Standing;
      if timerList == del {
        DeleteHead();
      } else {
        DeleteBehind(del);
      }
    }

    // ----- calling the timer at the head -----

    /** The head is done: its callback asked not to be called again. */
    method DispatchDone() returns (next: int)
      requires Valid() && timerList != periodic
      modifies this
      ensures Valid() && next == timerList.waketime && timerList != deleted && end == old(end)
      ensures old(timerList) == deleted ==> chain == old(chain) && clocks == old(clocks)
      ensures old(timerList) != deleted ==> chain == old(chain)[1..] && clocks == old(clocks)[1..]
      ensures old(Ordered()) ==> Ordered()
    {
      hide TakenOut, Low, Linked, Distinct, Woken, Words, PlacedIn, Orderly, Standing;
      Shape();
      var t := timerList;
      FitsAt(chain, clocks, end, p, 0);
      if t != deleted && Ordered() { OrderlyTail(clocks, end, p); }
      var after := t.next;
      next := after.waketime;
      timerList := after;
      if lastInsert == t {
        PlacedCache(chain, |clocks|, p, periodic, sentinel, deleted, lastInsert, 1);
        lastInsert := after;
      }
      if t != deleted {
        FitsTail(chain, clocks, end, p);
        HeadTaken(chain, clocks);
        HeadPlaced(chain, |clocks|, p, periodic, sentinel, deleted, lastInsert);
        chain, clocks, p := chain[1..], clocks[1..], p - 1;
      }
    }

    /** The clock of the sentinel once the timer at place i has clock x. */
    ghost function EndAfter(i: nat, x: int): int
      reads this
    {
      if p == i then x + HALF else end
    }

    /** The list behind the head, while the head has its new wake time but not its new place. */
    ghost predicate Behind(x: int)
      reads this, chain
    {
      && |chain| == |clocks| + 1 && clocks != [] && timerList == chain[0] && timerList.waketime == Low(x)
      && timerList.next == chain[1] && timerList !in chain[1..]
      && Linked(chain[1..]) && Distinct(chain[1..]) && Woken(chain[1..], Words(clocks[1..] + [EndAfter(0, x)]))
    }

    /** Sets the wake time of the head, as its callback does; the periodic timer takes the sentinel along. */
    method SetWaketime(newWake: int, ghost x: int)
      requires Valid() && timerList != deleted && newWake == Low(x)
      modifies timerList, sentinel
      ensures Behind(x)
    {
      hide Low, Words;
      Shape();
      forall i | 0 <= i <= |clocks| ensures chain[i].waketime == Low(if i < |clocks| then clocks[i] else end) {
        WokenAt(chain, clocks, end, i);
      }
      timerList.waketime := newWake;
      if timerList == periodic {
        LowAdds(x, HALF);
        sentinel.waketime := Low(newWake + HALF);
      }
      forall i | 0 <= i < |chain| - 1 ensures LinkAt(chain, i) {
        assert old(LinkAt(chain, i));
      }
      LinkedRest(chain);
      WokenAll(chain[1..], clocks[1..], EndAfter(0, x));
    }

    /** A new clock for the head that is near the others, and later by less than half a turn for the periodic timer. */
    ghost predicate GoodClock(x: int)
      reads this
    {
      clocks != [] && Near(clocks[1..], x) && (p == 0 ==> clocks[0] <= x < clocks[0] + HALF)
    }

    /** A search from place k behind the head finds the place of a near clock. */
    lemma AgainPlaced(k: int, x: int)
      requires Orderly(clocks, end, p) && GoodClock(x) && -1 <= k < |clocks| - 1
      requires k >= 0 ==> !IsBefore(Low(x), Low(clocks[k + 1]))
      ensures FirstAfter(Words(clocks[1..] + [EndAfter(0, x)]), k, Low(x)) == Place(clocks[1..], x)
    {
      hide Orderly, Near, Place, FirstAfter, Words, IsBefore, Low;
      SentinelBeyond(clocks, end, p, x);
      if k >= 0 { NearInOrder(clocks[1..], k, x); }
      SearchFindsPlace(clocks[1..], EndAfter(0, x), k, x);
    }

    /** With clock x the timer at place i stays before the one behind it, or the search for its place meets a
        later timer, which is what keeps the search in the list. */
    ghost predicate EndsAt(i: nat, x: int)
      reads this
    {
      && i < |clocks| && i < |chain|
      && (Stays(clocks[i..], EndAfter(i, x), x) || SearchEnds(chain[i..], clocks[i..], EndAfter(i, x), lastInsert, x))
    }

    /** That is so in every list in order, whatever the wake time. */
    lemma OrderedSearchEnds(i: nat, x: int)
      requires Orderly(clocks, end, p) && i <= p && i < |chain|
      ensures EndsAt(i, x)
    {
      assert p < |clocks|;
      hide Orderly, IsBefore, Low, FirstAfter, Words;
      OrderlyDrop(clocks, end, p, i);
      var rest, end' := clocks[i..], EndAfter(i, x);
      FirstWord(rest[1..], end');
      if !Stays(rest, end', x) {
        forall c | CachedAt(chain[i..], |rest|, c, lastInsert)
          ensures FirstAfter(Words(rest[1..] + [end']), StartOf(rest, c, x), Low(x)) < |rest|
        {
          AgainStops(rest, end, p - i, StartOf(rest, c, x), x);
        }
      }
    }

    lemma EndsAtHead(x: int)
      requires EndsAt(0, x)
      ensures clocks != [] && chain != []
      ensures Stays(clocks, EndAfter(0, x), x) || SearchEnds(chain, clocks, EndAfter(0, x), lastInsert, x)
    {
      hide Stays, SearchEnds;
      assert chain[0..] == chain && clocks[0..] == clocks;
    }

    /** Links the head in behind, searching from the cached position unless that is later. */
    method Relink(newWake: int, ghost x: int) returns (ghost n: nat)
      requires Behind(x) && Placed() && newWake == Low(x) && 1 < |chain|
      requires SearchEnds(chain, clocks, EndAfter(0, x), lastInsert, x)
      requires !IsBefore(newWake, chain[1].waketime)
      modifies chain
      ensures n < |clocks| && n > 0 && (Orderly(clocks, end, p) && GoodClock(x) ==> n == Place(clocks[1..], x))
      ensures timerList == chain[0] && timerList.waketime == newWake
      ensures Woken(chain[1..], Words(clocks[1..] + [EndAfter(0, x)]))
      ensures var c := InsertAt(chain[1..], n, timerList); Linked(c) && Distinct(c) && c[0] == chain[1]
    {
      hide Low, Orderly, Linked, Distinct, Woken, Place, PlacedIn, Words, IsBefore, FirstAfter, InsertAt, LinkAt;
      ghost var rest, end' := clocks[1..], EndAfter(0, x);
      ghost var k := CachedBehind(chain, |clocks|, p, periodic, sentinel, deleted, lastInsert);
      assert CachedAt(chain, |clocks|, k, lastInsert);
      WokenAt(chain[1..], rest, end', 0);
      var pos := lastInsert;
      if k >= 0 { WokenAt(chain[1..], rest, end', k); }
      NotBeforeItself(x);
      if IsBefore(newWake, pos.waketime) {
        pos := timerList.next;
        k := 0;
      }
      if Orderly(clocks, end, p) && GoodClock(x) { AgainPlaced(k, x); }
      n := FirstAfter(Words(rest + [end']), k, newWake);
      FoundBehind(Words(rest + [end']), k, newWake);
      InsertTimer(pos, timerList, newWake, chain[1..], Words(rest + [end']), k);
    }

    /** The timer that was the head has been linked in at place n. */
    ghost method Settle(t: Timer, x: int, n: nat)
      requires |chain| == |clocks| + 1 && Anchored(clocks, end, p) && n < |clocks| && 0 < period < HALF
      requires t == chain[0] && t.waketime == Low(x) && Woken(chain[1..], Words(clocks[1..] + [EndAfter(0, x)]))
      requires var c := InsertAt(chain[1..], n, t);
               && Linked(c) && Distinct(c) && timerList == c[0] && timerList != deleted
               && PlacedIn(c, |clocks|, MovedPlace(p, n), periodic, sentinel, deleted, lastInsert)
      modifies this`chain, this`clocks, this`end, this`p
      ensures Valid() && end == old(EndAfter(0, x)) && p == MovedPlace(old(p), n)
      ensures chain == InsertAt(old(chain)[1..], n, t) && clocks == InsertAt(old(clocks)[1..], n, x)
    {
      hide Low, Linked, Distinct, Woken, PlacedIn, Words, InsertAt, MovedPlace;
      FitsMoved(chain, clocks, end, p, n, x, EndAfter(0, x));
      chain, clocks, end, p :=
        InsertAt(chain[1..], n, t), InsertAt(clocks[1..], n, x), EndAfter(0, x), MovedPlace(p, n);
    }

    /** The comparison with the timer behind the head says that a near clock stays in front. */
    lemma HeadKept(x: int)
      requires Orderly(clocks, end, p) && GoodClock(x)
      requires IsBefore(Low(x), Words(clocks[1..] + [EndAfter(0, x)])[0])
      ensures Place(clocks[1..], x) == 0
    {
      hide Orderly, Near, Place, IsBefore, Low;
      SentinelBeyond(clocks, end, p, x);
      HeadDecides(clocks[1..], EndAfter(0, x), x);
    }

    /** The head is to be called again at any wake time: it stays the head or is linked in at place n before the
        sentinel.  When the wake time is near the others a sorted list stays sorted.  The search has to meet a
        later timer, as it does in every sorted list. */
    method DispatchAgain(newWake: int, ghost x: int) returns (next: int, ghost n: nat)
      requires Valid() && timerList != deleted && newWake == Low(x) && EndsAt(0, x)
      modifies this, timerList, sentinel, chain
      ensures Valid() && next == timerList.waketime && timerList != deleted && end == old(EndAfter(0, x))
      ensures n < |old(clocks)| && chain == InsertAt(old(chain)[1..], n, old(timerList))
      ensures clocks == InsertAt(old(clocks)[1..], n, x)
      ensures old(timerList) != periodic && |old(chain)| > 1 ==> (n == 0 <==> IsBefore(newWake, old(chain[1].waketime)))
      ensures old(Ordered() && GoodClock(x)) ==> Ordered() && n == Place(old(clocks)[1..], x)
    {
      hide FirstAfter, SearchEnds, EndsAt;
      hide Low, Linked, Distinct, Woken, Place, PlacedIn, Words, IsBefore, InsertAt, Near, MovedPlace, Fits, Orderly;
      hide Anchored;
      Shape();
      EndsAtHead(x);
      FitsAt(chain, clocks, end, p, 1);
      PlacedStays(chain, |clocks|, p, periodic, sentinel, deleted, lastInsert);
      AnchoredIn(chain, clocks, end, p);
      ghost var orderly := Ordered() && GoodClock(x);
      if orderly { OrderlyMove(clocks, end, p, x); }
      var t := timerList;
      SetWaketime(newWake, x);
      var after := t.next;
      WokenAt(chain[1..], clocks[1..], EndAfter(0, x), 0);
      FirstWord(clocks[1..], EndAfter(0, x));
      if IsBefore(newWake, after.waketime) {
        next, n := newWake, 0;
        if orderly { HeadKept(x); }
        HeadStays(t, chain[1..]);
      } else {
        next := after.waketime;
        n := Relink(newWake, x);
        WokenAt(chain[1..], clocks[1..], EndAfter(0, x), 0);
        PlacedMoved(chain, |clocks|, p, periodic, sentinel, deleted, lastInsert, n);
        timerList, lastInsert := after, t;
      }
      Settle(t, x, n);
    }

    lemma PeriodicClock(x: int)
      requires Valid() && Ordered() && timerList == periodic && clocks != [] && x == clocks[0] + period
      ensures GoodClock(x) && Low(periodic.waketime + period) == Low(x)
    {
      hide Low, Linked, Woken, Words, Near;
      Shape();
      assert p == 0;
      PeriodicNear(clocks, end, x);
      LowAdds(clocks[0], period);
    }

    /** The timer that was called is at place i: its callback may have put others in front of it, which puts the
        stand-in at the head. */
    ghost predicate CalledAt(t: Timer, i: nat)
      reads this
    {
      && i < |clocks| && i < |chain| && chain[i] == t && i <= p && lastInsert !in chain[..i]
      && if i == 0 then timerList == t else timerList == deleted && t != periodic
    }

    lemma CalledNext(t: Timer, i: nat)
      requires Valid() && CalledAt(t, i)
      ensures |chain| == |clocks| + 1 && t.next == chain[i + 1] && Distinct(chain) && t in chain
    {
      FitsAt(chain, clocks, end, p, i);
    }

    /** What is in front of the called timer falls off: its link, not the head of the list, is followed. */
    method DropFront(t: Timer, ghost i: nat)
      requires Valid() && CalledAt(t, i) && t != deleted
      modifies this
      ensures Valid() && timerList == t && chain == old(chain)[i..] && clocks == old(clocks)[i..]
      ensures end == old(end) && p == old(p) - i && lastInsert == old(lastInsert)
      ensures forall x {:trigger old(EndsAt(i, x))} :: old(EndsAt(i, x)) ==> EndsAt(0, x)
    {
      hide Low, Linked, Distinct, Woken, Words, Stays, SearchEnds;
      FitsDrop(chain, clocks, end, p, i);
      PlacedDrop(chain, |clocks|, p, periodic, sentinel, deleted, lastInsert, i);
      timerList := t;
      chain, clocks, p := chain[i..], clocks[i..], p - i;
      assert chain[0..] == chain && clocks[0..] == clocks;
    }

    /** The called timer stays between those in front of it and the next. */
    method StayBehind(t: Timer, ghost i: nat, newWake: int, ghost x: int)
      requires Valid() && CalledAt(t, i) && 0 < i && newWake == Low(x)
      modifies this`clocks, t
      ensures Valid() && clocks == old(clocks)[i := x]
    {
      hide Low;
      Shape();
      forall j | 0 <= j <= |clocks| ensures chain[j].waketime == Low(if j < |clocks| then clocks[j] else end) {
        WokenAt(chain, clocks, end, j);
      }
      assert t != sentinel;
      t.waketime := newWake;
      forall j | 0 <= j < |chain| - 1 ensures LinkAt(chain, j) {
        assert old(LinkAt(chain, j));
      }
      clocks := clocks[i := x];
      WokenAll(chain, clocks, end);
      assert Linked(chain);
    }

    /**
     After a callback: timer t was called when it was the head, and i timers were put in front
     of it meanwhile.  The callback says whether it is done, and otherwise when it is to be
     called again.  The timers in front are kept if and only if there are none, or t is called
     again before the timer behind it; otherwise they are lost.  Without them the wake time
     returned is that of the new head.
     */
    method Dispatch(t: Timer, ghost i: nat, done: bool, newWake: int, ghost x: int) returns (next: int, ghost n: nat)
      requires Valid() && (if t == deleted then timerList == deleted && done && i == 0 else CalledAt(t, i))
      requires t == periodic ==> !done && newWake == Low(periodic.waketime + period) && x == clocks[i] + period
      requires !done ==> newWake == Low(x) && EndsAt(i, x)
      modifies this, t, sentinel, chain
      ensures Valid()
      ensures t == deleted ==> chain == old(chain) && clocks == old(clocks)
      ensures t != deleted && done ==> chain == old(chain)[i + 1..] && clocks == old(clocks)[i + 1..]
      ensures !done && 0 < i && IsBefore(newWake, old(chain[i + 1].waketime)) ==> chain == old(chain) && next == newWake
      ensures !done && !(0 < i && IsBefore(newWake, old(chain[i + 1].waketime))) ==>
        && n < |old(clocks)| - i && chain == InsertAt(old(chain)[i + 1..], n, t)
        && clocks == InsertAt(old(clocks)[i + 1..], n, x)
      ensures (forall u :: u in old(chain)[..i] ==> u in chain) <==>
                i == 0 || (!done && IsBefore(newWake, old(chain[i + 1].waketime)))
      ensures i == 0 ==> next == timerList.waketime && timerList != deleted
      ensures i == 0 && old(Ordered()) && (done || t == periodic || old(GoodClock(x))) ==>
        Ordered() && (!done ==> n == Place(old(clocks)[1..], x))
    {
      hide Low, Fits, Near, InsertAt, Place, Orderly, Standing, PlacedIn, StandsIn, IsBefore, Words, FirstAfter;
      hide Distinct, EndsAt;
      Shape();
      n := 0;
      if t == deleted {
        next := DispatchDone();
        return;
      }
      CalledNext(t, i);
      TailOfDrop(chain, i);
      TailOfDrop(clocks, i);
      ghost var orderly := Ordered();
      if orderly { OrderlyDrop(clocks, end, p, i); }
      if timerList != t {
        if !done && IsBefore(newWake, t.next.waketime) {
          StayBehind(t, i, newWake, x);
          next := newWake;
          return;
        }
        DropFront(t, i);
      }
      if done {
        next := DispatchDone();
      } else {
        if orderly && t == periodic { PeriodicClock(x); }
        next, n := DispatchAgain(newWake, x);
        MovedWithin(old(chain), i, n);
      }
      if i > 0 { FrontLost(old(chain), i, chain); }
    }

    /** Drops all timers but the periodic one. */
    method Reset()
      requires Valid()
      modifies this, deleted, periodic
      ensures Valid() && Ordered() && chain == [periodic, sentinel] && clocks == [end - HALF] && end == old(end)
      ensures timerList == deleted
    {
      hide Low;
      Shape();
      FitsAt(chain, clocks, end, p, p);
      FitsAt(chain, clocks, end, p, |clocks|);
      timerList := deleted;
      deleted.waketime := periodic.waketime;
      deleted.next := periodic;
      lastInsert := periodic;
      periodic.next := sentinel;
      chain, clocks, stand, p := [periodic, sentinel], [end - HALF], end - HALF, 0;
      assert LinkAt(chain, 0);
      assert chain[..1] == [periodic];
      WokenAll(chain, clocks, end);
    }
  }

  lemma FitsNonEmpty(chain: seq<Timer>, clocks: seq<int>, end: int, p: nat)
    requires Fits(chain, clocks, end, p)
    ensures clocks != [] && chain != []
  {
  }

  lemma WithoutKeepsFirst(clocks: seq<int>, i: nat)
    requires 0 < i < |clocks|
    ensures Without(clocks, i) != [] && Without(clocks, i)[0] == clocks[0]
  {
  }

  lemma AnchoredIn(chain: seq<Timer>, clocks: seq<int>, end: int, p: nat)
    requires Fits(chain, clocks, end, p)
    ensures Anchored(clocks, end, p)
  {
  }

  lemma FirstWord(rest: seq<int>, end: int)
    ensures Words(rest + [end])[0] == Low(if rest == [] then end else rest[0])
  {
  }

  /** A search that does not stop at the first word stops later. */
  lemma FoundBehind(words: seq<int>, k: int, w: int)
    requires -1 <= k < |words| && words != [] && !IsBefore(w, words[0])
    ensures FirstAfter(words, k, w) > 0
  {
  }

  lemma NearInOrder(rest: seq<int>, k: nat, x: int)
    requires Near(rest, x) && k < |rest| && !IsBefore(Low(x), Low(rest[k]))
    ensures rest[k] <= x
  {
    WordsOrderLikeClocks(x, rest[k]);
  }

  lemma SentinelLater(clocks: seq<int>, end: int, p: nat, x: int)
    requires Orderly(clocks, end, p) && Near(clocks, x)
    ensures x < end && end - HALF in clocks
  {
    assert clocks[p] == end - HALF;
  }
}
