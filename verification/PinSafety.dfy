/**
 The safety timeout of output pins: an output that is not at its default value, or that is
 pulsing, has to be renewed in time.

 Commands and the micro-controller hold the 32-bit words of clocks and compare those.  Here a
 field holds the clock that its word stands for, and every comparison is the comparison of the
 words.  A word that is handed to the scheduler stands for the first clock from now on that has
 it, unless the scheduler takes it for one that is past.
 */
module PinSafety {
  import opened Word32
  import opened Wrappers
  import opened TimerOrder

  /** A new output setting at a clock; `risky` if it may not stay for longer than the maximum. */
  datatype Setting = Setting(clock: int, risky: bool)

  /** What the micro-controller finds when it compares the words of two clocks. */
  predicate Before(a: int, b: int) {
    IsBefore(Low(a), Low(b))
  }

  /** The first clock from now on that has the word. */
  function At(w: int, now: int): (t: int)
    ensures now <= t < now + TWO32
  {
    now + Low(w - now)
  }

  lemma PastIsPast(w: int, now: int)
    ensures At(w, now) - TWO32 < now
  {
  }

  lemma AtWord(w: int, now: int)
    ensures Low(At(w, now)) == Low(w)
  {
    LowAdds(w - now, now);
  }

  lemma AtItself(t: int, now: int)
    requires now <= t < now + TWO32
    ensures At(t, now) == t
  {
  }

  lemma BeforeExact(a: int, b: int)
    ensures Before(a, b) <==> 0 < Low(b - a) <= HALF
  {
    LowDifference(a, b);
    LowNegated(b - a);
  }

  lemma LowNegated(x: int)
    ensures Low(-x) == if Low(x) == 0 then 0 else TWO32 - Low(x)
  {
    LowIsRemainder(x);
    LowIsRemainder(-x);
  }

  /** Less than a turn apart, a clock looks earlier if it is so by up to half a turn, or is later by half a turn
      or more. */
  lemma BeforeWithinTurn(a: int, b: int)
    requires -TWO32 < b - a < TWO32
    ensures Before(a, b) <==> 0 < b - a <= HALF || b - a <= -HALF
  {
    BeforeExact(a, b);
    LowIsRemainder(b - a);
  }

  // ----- the scheduler -----

  /** A new timer with such a word is refused: it is before both the current time and the head of the list. */
  predicate TooClose(w: int, now: int, head: int) {
    Before(w, head) && Before(w, now)
  }

  /** When a timer called at the clock `now` rings that asks for the word to be its next: a word before both this
      clock and the timer behind it stays at the head of the list, as one that is past. */
  function Rings(w: int, now: int, next: int): int {
    if TooClose(w, now, next) then At(w, now) - TWO32 else At(w, now)
  }

  /** The scheduler takes a timer in again.  One that is past rings at once or, unless it is tolerated, is a
      shutdown. */
  function Again(w: int, now: int, next: int, tolerant: bool): Option<int> {
    if TooClose(w, now, next) && !tolerant then None else Some(Rings(w, now, next))
  }

  /** The clock asked for is by the deadline, or is taken for one that is past. */
  predicate Met(w: int, now: int, next: int, deadline: int) {
    At(w, now) <= deadline || TooClose(w, now, next)
  }

  lemma TooCloseExact(w: int, now: int, head: int)
    requires now <= head < now + HALF
    ensures TooClose(w, now, head) <==> HALF <= At(w, now) - now && head <= At(w, now) - HALF
  {
    hide Before, Low;
    AtWord(w, now);
    SameWord(At(w, now), w, now);
    SameWord(At(w, now), w, head);
    BeforeWithinTurn(At(w, now), now);
    BeforeWithinTurn(At(w, now), head);
  }

  lemma SameWord(t: int, w: int, b: int)
    requires Low(t) == Low(w)
    ensures Before(t, b) == Before(w, b) && Before(b, t) == Before(b, w)
  {
  }

  lemma SameClose(t: int, w: int, now: int, head: int)
    requires Low(t) == Low(w)
    ensures TooClose(t, now, head) == TooClose(w, now, head)
  {
    hide Before;
    SameWord(t, w, now);
    SameWord(t, w, head);
  }

  lemma NearRings(t: int, now: int, next: int)
    requires now <= t < now + HALF
    ensures Rings(t, now, next) == t && !TooClose(t, now, next)
  {
    hide Before, Low;
    AtItself(t, now);
    BeforeWithinTurn(t, now);
  }

  lemma FarTooClose(t: int, now: int, next: int, limit: int)
    requires now <= next <= limit && limit + HALF < t < now + TWO32
    ensures TooClose(t, now, next)
  {
    hide Before, Low;
    AtItself(t, now);
    TooCloseExact(t, now, next);
  }

  lemma AgainMeets(w: int, now: int, next: int, tolerant: bool, deadline: int)
    requires now <= deadline
    ensures var r := Again(w, now, next, tolerant); (r.None? || r.value <= deadline) <==> Met(w, now, next, deadline)
  {
    hide TooClose, Low;
  }

  /**
   Whatever word an update has: if it is not found to be after the end and the scheduler takes
   it, then it comes by the end.  The head of the list is not after the end.
   */
  lemma UpdateInTime(w: int, now: int, head: int, end: int)
    requires now <= head <= end < now + TWO32
    ensures !Before(end, w) && !TooClose(w, now, head) ==> At(w, now) <= end
  {
    hide Before, Low;
    var t := At(w, now);
    AtWord(w, now);
    SameWord(t, w, end);
    SameWord(t, w, head);
    SameWord(t, w, now);
    BeforeWithinTurn(end, t);
    BeforeWithinTurn(t, head);
    BeforeWithinTurn(t, now);
  }

  /** The same for an update that is left to the next toggle: it comes after the toggle and by the end. */
  lemma ToggledUpdateInTime(w: int, now: int, wake: int, end: int)
    requires now <= wake < end < now + TWO32
    ensures !Before(end, w) && Before(wake, w) ==> wake < At(w, now) <= end
  {
    hide Before, Low;
    var t := At(w, now);
    AtWord(w, now);
    SameWord(t, w, end);
    SameWord(t, w, wake);
    BeforeWithinTurn(end, t);
    BeforeWithinTurn(wake, t);
  }

  /**
   A word asked for that was not found to be after the limit rings after it if and only if it
   is more than half a turn after it and the timer behind is less than half a turn before it.
   */
  lemma LateIff(w: int, now: int, next: int, limit: int)
    requires now <= limit < now + TWO32 && now <= next < now + HALF && !Before(limit, w)
    ensures limit < Rings(w, now, next) <==> limit + HALF < At(w, now) < next + HALF
  {
    hide Before, Low, TooClose;
    TooCloseExact(w, now, next);
    AtWord(w, now);
    SameWord(At(w, now), w, limit);
    BeforeWithinTurn(limit, At(w, now));
  }

  // ----- the promise -----

  /** There is a setting that may not stay. */
  predicate AtRisk(settings: seq<Setting>, maxDuration: Word) {
    maxDuration > 0 && settings != [] && settings[|settings|-1].risky
  }

  function Deadline(settings: seq<Setting>, maxDuration: Word): int
    requires settings != []
  {
    settings[|settings|-1].clock + maxDuration
  }

  /** Every risky setting was followed in time. */
  ghost predicate InTime(settings: seq<Setting>, maxDuration: Word) {
    maxDuration == 0
    || forall i :: 0 < i < |settings| && settings[i-1].risky ==>
         settings[i].clock <= settings[i-1].clock + maxDuration
  }

  /** The timer rings by the deadline of the last setting, if that has one. */
  ghost predicate Watched(settings: seq<Setting>, maxDuration: Word, scheduled: bool, due: int) {
    AtRisk(settings, maxDuration) ==> scheduled && due <= Deadline(settings, maxDuration)
  }

  ghost predicate Promise(settings: seq<Setting>, maxDuration: Word, scheduled: bool, due: int) {
    InTime(settings, maxDuration) && Watched(settings, maxDuration, scheduled, due)
  }

  /** A setting made by the time the timer was due. */
  lemma InTimeSnoc(settings: seq<Setting>, maxDuration: Word, scheduled: bool, due: int, s: Setting)
    requires Promise(settings, maxDuration, scheduled, due) && (scheduled ==> s.clock <= due)
    ensures InTime(settings + [s], maxDuration)
  {
  }
}
