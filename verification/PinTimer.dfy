/**
 The timer of a pin in the list of the scheduler.

 A command takes the timer out and puts it in again with a new word.  An event asks for its
 next word when it returns.  What the pins expect of the scheduler holds of its list.
 */
module PinTimer {
  import opened Word32
  import opened TimerOrder
  import opened TimerList
  import opened Sched
  import opened PinSafety

  /** No timer of a sorted list is before the head. */
  lemma HeadFirst(s: Scheduler, i: nat)
    requires s.Ordered() && i < |s.clocks|
    ensures s.HeadClock() <= s.clocks[i]
  {
  }

  /** While another timer rings, the one behind it in a sorted list is due by the periodic timer. */
  lemma NextByPeriodic(s: Scheduler)
    requires s.Ordered() && 0 < s.p
    ensures s.clocks[1] <= s.clocks[s.p]
  {
  }

  lemma LowOfWord(time: Word)
    ensures Low(time) == time
  {
  }

  lemma InsertedAt<T>(s: seq<T>, n: nat, x: T)
    requires n <= |s|
    ensures InsertAt(s, n, x)[n] == x
  {
  }

  lemma InsertFirst<T>(s: seq<T>, x: T)
    ensures InsertAt(s, 0, x) == [x] + s
  {
  }

  lemma TakenFrom(chain: seq<Timer>, clocks: seq<int>, del: Timer, chain': seq<Timer>, clocks': seq<int>)
    requires TakenOut(chain, clocks, del, chain', clocks')
    ensures forall k :: 0 <= k < |chain'| ==> chain'[k] in chain
  {
  }

  lemma WordBefore(time: Word, clock: int)
    ensures IsBefore(time, clock) == Before(time, clock) && IsBefore(time, Low(clock)) == Before(time, clock)
  {
    LowDifference(time, clock);
    SubLow(time, clock);
  }

  /**
   A waiting timer is moved to any word, at the clock `now`.  False is a shutdown: the word is
   before both the head and the current time.  If the timer was to ring by the end, and the
   word is not found to be after the end, then it rings between now and the end.
   */
  method Move(s: Scheduler, t: Timer, time: Word, now: int, ghost i: nat, ghost end: int)
    returns (ok: bool, ghost n: nat)
    requires s.Valid() && s.Ordered() && t != s.deleted && t != s.periodic && t != s.sentinel
    requires i < |s.clocks| && i < |s.chain| && s.chain[i] == t && s.clocks[i] <= end
    requires now <= s.HeadClock() && end < now + TWO32
    modifies s, t, s.deleted, s.chain
    ensures s.Valid() && (ok <==> !TooClose(time, now, old(s.HeadClock())))
    ensures ok ==> n < |s.clocks| && n < |s.chain| && s.chain[n] == t && s.clocks[n] == At(time, now)
    ensures ok && !Before(end, time) ==> n < |s.clocks| && now <= s.clocks[n] <= end
  {
    hide Fits, Before, Low, Orderly, Standing, PlacedIn, StandsIn, TakenOut, IsBefore, Place, Near, InsertAt, At;
    HeadFirst(s, i);
    ghost var head := s.HeadClock();
    s.DeleteTimer(t);
    TakenFrom(old(s.chain), old(s.clocks), t, s.chain, s.clocks);
    t.waketime := time;
    s.Shape();
    AtWord(time, now);
    LowOfWord(time);
    WordBefore(time, now);
    WordBefore(time, head);
    UpdateInTime(time, now, head, end);
    ghost var chain, clocks := s.chain, s.clocks;
    ok, n := s.AddTimer(t, At(time, now), now, false);
    if ok {
      InsertedAt(chain, n, t);
      InsertedAt(clocks, n, At(time, now));
    }
  }

  /** In a sorted list a word that is not past is near all timers behind the one that rings. */
  lemma NotPastIsNear(clocks: seq<int>, end: int, p: nat, w: int)
    requires Orderly(clocks, end, p) && 0 < p && !TooClose(w, clocks[0], clocks[1])
    ensures Near(clocks[1..], At(w, clocks[0]))
  {
    hide Before, Low, TooClose;
    var t := At(w, clocks[0]);
    assert Near(clocks, clocks[0]) && Near(clocks, clocks[1]);
    TooCloseExact(w, clocks[0], clocks[1]);
  }

  lemma RingsWord(w: Word, now: int, next: int)
    ensures Low(Rings(w, now, next)) == w
  {
    hide TooClose;
    AtWord(w, now);
    WrapMultiple(At(w, now), -1);
    LowOfWord(w);
  }

  /**
   The timer at the head rings and asks for any word.  It stays at the head if the word is
   taken for one that is past, and otherwise is put in its place in the sorted list at the
   first clock that has the word.
   */
  method CallAgain(s: Scheduler, w: Word) returns (next: int)
    requires s.Valid() && s.Ordered() && s.timerList != s.deleted && s.timerList != s.periodic && 0 < s.p
    modifies s, s.timerList, s.sentinel, s.chain
    ensures s.Valid() && next == s.timerList.waketime
    ensures var now, behind := old(s.clocks)[0], old(s.clocks)[1]; var rest := old(s.clocks)[1..];
            var x := Rings(w, now, behind);
            if TooClose(w, now, behind)
            then s.timerList == old(s.timerList) && s.chain == old(s.chain) && s.clocks == [x] + rest && x < now
            else s.Ordered() && s.chain == InsertAt(old(s.chain)[1..], Place(rest, x), old(s.timerList))
                 && s.clocks == InsertAt(rest, Place(rest, x), x)
  {
    hide Fits, Before, Low, Standing, PlacedIn, StandsIn, IsBefore, Place, InsertAt, At, Near;
    s.Shape();
    FitsAt(s.chain, s.clocks, s.end, s.p, 1);
    WordBefore(w, s.clocks[1]);
    ghost var now, behind, rest, chain := s.clocks[0], s.clocks[1], s.clocks[1..], s.chain;
    ghost var x := Rings(w, now, behind);
    RingsWord(w, now, behind);
    s.OrderedSearchEnds(0, x);
    if !TooClose(w, now, behind) { NotPastIsNear(s.clocks, s.end, s.p, w); }
    ghost var n;
    next, n := s.DispatchAgain(w, x);
    InsertFirst(rest, x);
    InsertFirst(chain[1..], chain[0]);
    PastIsPast(w, now);
  }
}
