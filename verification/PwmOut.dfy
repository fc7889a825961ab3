/** Outputs pulsed by hardware. */
module PwmOut {
  import opened Word32
  import opened Wrappers
  import opened TimerOrder
  import opened PinSafety

  datatype Update = Update(waketime: Word, value: int)

  /** `ending` is set while the timer waits for the safety timeout rather than for the next update. */
  datatype Pin = Pin(ending: bool, scheduled: bool, waketime: int, value: int, defaultValue: int, maxDuration: Word,
                     mq: seq<Update>)

  function Config(value: int, defaultValue: int, maxDuration: Word): Pin {
    Pin(false, false, 0, value, defaultValue, maxDuration, [])
  }

  predicate Limited(p: Pin, value: int) {
    value != p.defaultValue && p.maxDuration > 0
  }

  /** None is a shutdown; the scheduler never calls the event with an empty queue. */
  function PwmEvent(p: Pin): Option<Pin> {
    if p.ending || p.mq == [] then None
    else
      var m, rest := p.mq[0], p.mq[1..];
      var t := p.(value := m.value, mq := rest);
      if rest == [] then
        if Limited(p, m.value) then Some(t.(waketime := p.waketime + p.maxDuration, ending := true))
        else Some(t.(scheduled := false))
      else if Limited(p, m.value) && Before(p.waketime + p.maxDuration, rest[0].waketime) then None
      else Some(t.(waketime := At(rest[0].waketime, p.waketime)))
  }

  /** An update that comes at the clock `now`, when the list of timers without that of the pin begins at the clock
      `head`.  None is a shutdown by the pin or by the scheduler. */
  function QueueOut(p: Pin, time: Word, value: int, now: int, head: int): Option<Pin> {
    var t := p.(mq := p.mq + [Update(time, value)]);
    if p.mq != [] then Some(t)
    else if p.ending && Before(p.waketime, time) then None
    else if TooClose(time, now, head) then None
    else Some(t.(scheduled := true, ending := false, waketime := At(time, now)))
  }

  /** The scheduler takes the timer in again, if it is to be called again. */
  function Rung(p: Pin, now: int, next: int, tolerant: bool): Option<Pin> {
    if !p.scheduled then Some(p)
    else
      var wake := Again(p.waketime, now, next, tolerant);
      if wake.None? then None else Some(p.(waketime := wake.value))
  }

  /** What an event asks for is taken for a clock that is past. */
  predicate EventIsPast(p: Pin, next: int) {
    var n := PwmEvent(p);
    n.Some? && n.value.scheduled && TooClose(n.value.waketime, p.waketime, next)
  }

  // ----- runs -----

  datatype Event = Fire(next: int, tolerant: bool) | Queue(time: Word, value: int, now: int, head: int)

  datatype Trace = Trace(pin: Pin, settings: seq<Setting>)

  /** A command comes after the last setting and before any timer that is due; the head of the list is not
      after the timer of the pin. */
  predicate Current(t: Trace, now: int, head: int) {
    && now <= head && (t.pin.scheduled ==> head <= t.pin.waketime)
    && (t.settings != [] ==> t.settings[|t.settings|-1].clock <= now)
  }

  predicate Enabled(t: Trace, e: Event) {
    match e
    case Fire(next, _) => t.pin.scheduled && t.pin.waketime <= next
    case Queue(_, _, now, head) => t.pin.mq == [] ==> Current(t, now, head)
  }

  function Next(p: Pin, e: Event): Option<Pin> {
    match e
    case Fire(next, tolerant) =>
      var c := PwmEvent(p);
      if c.None? then None else Rung(c.value, p.waketime, next, tolerant)
    case Queue(time, value, now, head) => QueueOut(p, time, value, now, head)
  }

  function Made(p: Pin, e: Event): seq<Setting> {
    if e.Fire? && !p.ending && p.mq != [] then [Setting(p.waketime, p.mq[0].value != p.defaultValue)] else []
  }

  function Step(t: Trace, e: Event): Option<Trace> {
    if !Enabled(t, e) then Some(t)
    else
      var n := Next(t.pin, e);
      if n.None? then None else Some(Trace(n.value, t.settings + Made(t.pin, e)))
  }

  function Run(start: Pin, es: seq<Event>): Option<Trace> {
    if es == [] then Some(Trace(start, []))
    else
      var r := Run(start, es[..|es|-1]);
      if r.None? then None else Step(r.value, es[|es|-1])
  }

  // ----- the promise -----

  /** So far every value that is not the default was followed in time, and the timer will ring by the deadline of
      the last one. */
  ghost predicate Kept(t: Trace) {
    Promise(t.settings, t.pin.maxDuration, t.pin.scheduled, t.pin.waketime)
  }

  /** With no update in the queue the timer waits for the deadline, or is taken for one that is past. */
  ghost predicate Anchored(t: Trace) {
    AtRisk(t.settings, t.pin.maxDuration) && t.pin.mq == [] ==>
      t.pin.ending && (t.pin.waketime == Deadline(t.settings, t.pin.maxDuration)
                       || t.pin.waketime < t.settings[|t.settings|-1].clock)
  }

  /** What a setting with a limit asks for is met; only timer events can ask for too late a clock. */
  predicate Judged(t: Trace, e: Event) {
    var p := t.pin;
    e.Fire? && !p.ending && p.mq != [] && Limited(p, p.mq[0].value) && PwmEvent(p).Some? ==>
      Met(PwmEvent(p).value.waketime, p.waketime, e.next, p.waketime + p.maxDuration)
  }

  /** Making a setting is a shutdown exactly at the safety timeout, or when the update after it is late by up to
      half a turn, or by that and whole turns. */
  lemma EventRefusedIff(p: Pin)
    requires p.ending || p.mq != []
    ensures PwmEvent(p).None? <==>
              p.ending || (|p.mq| > 1 && Limited(p, p.mq[0].value)
                           && 0 < Low(p.mq[1].waketime - (p.waketime + p.maxDuration)) <= HALF)
  {
    hide Before, Low;
    if |p.mq| > 1 { BeforeExact(p.waketime + p.maxDuration, p.mq[1].waketime); }
  }

  /** An update is refused exactly when it is the first in the queue and is late in that way, or the scheduler
      finds its timer too close. */
  lemma QueueRefusedIff(p: Pin, time: Word, value: int, now: int, head: int)
    ensures QueueOut(p, time, value, now, head).None? <==>
              p.mq == [] && ((p.ending && 0 < Low(time - p.waketime) <= HALF) || TooClose(time, now, head))
  {
    hide Before, Low;
    BeforeExact(p.waketime, time);
  }

  /** Every update keeps the promise, whatever its word: it comes in time or there is a shutdown. */
  lemma UpdateKeepsPromise(t: Trace, time: Word, value: int, now: int, head: int)
    requires Kept(t) && Anchored(t) && Enabled(t, Queue(time, value, now, head))
    ensures var n := QueueOut(t.pin, time, value, now, head); n.None? || Kept(Trace(n.value, t.settings))
    ensures var n := QueueOut(t.pin, time, value, now, head); n.Some? ==> Anchored(Trace(n.value, t.settings))
  {
    hide Before, At, InTime, TooClose;
    if AtRisk(t.settings, t.pin.maxDuration) && t.pin.mq == [] {
      UpdateInTime(time, now, head, t.pin.waketime);
    }
  }

  lemma RungMeets(p: Pin, now: int, next: int, tolerant: bool, deadline: int)
    requires p.scheduled && now <= deadline
    ensures var r := Rung(p, now, next, tolerant);
            && (r.None? || (r.value.scheduled && r.value.waketime <= deadline)
                <==> Met(p.waketime, now, next, deadline))
            && (r.Some? ==> r.value.waketime == At(p.waketime, now) || r.value.waketime < now)
  {
    hide Met, At, TooClose;
    AgainMeets(p.waketime, now, next, tolerant, deadline);
    PastIsPast(p.waketime, now);
  }

  lemma RungFields(p: Pin, now: int, next: int, tolerant: bool)
    ensures var r := Rung(p, now, next, tolerant); r.Some? ==> r.value == p.(waketime := r.value.waketime)
  {
    hide Again;
  }

  lemma EventFields(p: Pin)
    requires PwmEvent(p).Some? && p.scheduled
    ensures !p.ending && p.mq != []
    ensures var a := PwmEvent(p).value;
            && a.mq == p.mq[1..] && a.maxDuration == p.maxDuration && a.value == p.mq[0].value
            && (Limited(p, p.mq[0].value) ==> a.scheduled)
            && (Limited(p, p.mq[0].value) && a.mq == [] ==> a.ending && a.waketime == p.waketime + p.maxDuration)
  {
    hide Before, At;
  }

  lemma EventSafeIff(t: Trace, next: int, tolerant: bool)
    requires Kept(t) && t.pin.scheduled && PwmEvent(t.pin).Some?
    ensures var e := Fire(next, tolerant); var n := Next(t.pin, e);
            && ((n.None? || Kept(Trace(n.value, t.settings + Made(t.pin, e)))) <==> Judged(t, e))
            && (n.Some? ==> Anchored(Trace(n.value, t.settings + Made(t.pin, e))))
  {
    hide PwmEvent, InTime, Met, Rung, At;
    var p, e := t.pin, Fire(next, tolerant);
    var a := PwmEvent(p).value;
    EventFields(p);
    RungFields(a, p.waketime, next, tolerant);
    InTimeSnoc(t.settings, p.maxDuration, p.scheduled, p.waketime, Made(p, e)[0]);
    if Limited(p, p.mq[0].value) {
      RungMeets(a, p.waketime, next, tolerant, p.waketime + p.maxDuration);
      if a.mq == [] { AtItself(a.waketime, p.waketime); }
    }
  }

  /** A step keeps the promise, or shuts down, exactly when what it asks for is met; updates always do. */
  lemma StepSafeIff(t: Trace, e: Event)
    requires Kept(t) && Anchored(t) && Enabled(t, e)
    ensures var n := Step(t, e); (n.None? || Kept(n.value)) <==> Judged(t, e)
    ensures var n := Step(t, e); n.Some? ==> Anchored(n.value)
  {
    hide Kept, Anchored, QueueOut, PwmEvent, Met, Rung, Limited;
    assert t.settings + [] == t.settings;
    match e
    case Fire(next, tolerant) => if PwmEvent(t.pin).Some? { EventSafeIff(t, next, tolerant); }
    case Queue(time, value, now, head) => UpdateKeepsPromise(t, time, value, now, head);
  }

  lemma StartKept(value: int, defaultValue: int, maxDuration: Word)
    ensures var t := Trace(Config(value, defaultValue, maxDuration), []); Kept(t) && Anchored(t)
  {
  }

  ghost predicate AlwaysKept(start: Pin, es: seq<Event>) {
    && (es != [] ==> AlwaysKept(start, es[..|es|-1]))
    && (Run(start, es).Some? ==> Kept(Run(start, es).value))
  }

  ghost predicate AllJudged(start: Pin, es: seq<Event>) {
    es != [] ==>
      && AllJudged(start, es[..|es|-1])
      && var r, e := Run(start, es[..|es|-1]), es[|es|-1];
         (r.Some? && Enabled(r.value, e) ==> Judged(r.value, e))
  }

  /** In every run, whatever the words: all along every value that is not the default was followed within the
      maximum and the timer rings in time for the last one, or there is a shutdown, if and only if no timer event
      asks for a clock that is too late and gets it. */
  lemma {:induction false} RunSafeIff(value: int, defaultValue: int, maxDuration: Word, es: seq<Event>)
    ensures var start := Config(value, defaultValue, maxDuration);
            && (AlwaysKept(start, es) <==> AllJudged(start, es))
            && (AlwaysKept(start, es) && Run(start, es).Some? ==> Anchored(Run(start, es).value))
  {
    hide Kept, Anchored, Judged, Enabled, Next, Made;
    var start := Config(value, defaultValue, maxDuration);
    if es == [] {
      StartKept(value, defaultValue, maxDuration);
    } else {
      RunSafeIff(value, defaultValue, maxDuration, es[..|es|-1]);
      var r, e := Run(start, es[..|es|-1]), es[|es|-1];
      if AlwaysKept(start, es[..|es|-1]) && r.Some? && Enabled(r.value, e) {
        StepSafeIff(r.value, e);
      }
    }
  }

  /** When what a setting with a limit asks for is not met, while another update waits. */
  lemma EventSlipsIff(t: Trace, next: int, tolerant: bool)
    requires !t.pin.ending && |t.pin.mq| > 1 && Limited(t.pin, t.pin.mq[0].value) && PwmEvent(t.pin).Some?
    requires t.pin.waketime <= next < t.pin.waketime + HALF
    ensures var p := t.pin;
            !Judged(t, Fire(next, tolerant)) <==>
              && p.maxDuration + HALF < Low(p.mq[1].waketime - p.waketime)
              && At(p.mq[1].waketime, p.waketime) < next + HALF
  {
    hide Before, Low, TooClose;
    var w, now := t.pin.mq[1].waketime, t.pin.waketime;
    AtItself(At(w, now), now);
    AtWord(w, now);
    SameClose(At(w, now), w, now, next);
    LateIff(w, now, next, now + t.pin.maxDuration);
  }

  /**
   A setting with a limit, made while another update waits, keeps the promise or shuts down,
   unless that update is more than half a turn after the limit and the timer behind is less
   than half a turn before the update.
   */
  lemma EventKeepsPromiseIff(t: Trace, next: int, tolerant: bool)
    requires Kept(t) && t.pin.scheduled && !t.pin.ending && |t.pin.mq| > 1 && Limited(t.pin, t.pin.mq[0].value)
    requires t.pin.waketime <= next < t.pin.waketime + HALF
    ensures var p := t.pin; var e := Fire(next, tolerant); var n := Next(p, e);
            (n.None? || Kept(Trace(n.value, t.settings + Made(p, e)))) <==>
              !(&& p.maxDuration + HALF < Low(p.mq[1].waketime - p.waketime)
                && At(p.mq[1].waketime, p.waketime) < next + HALF)
  {
    hide PwmEvent, Rung, Kept, Judged, Low, At;
    if PwmEvent(t.pin).Some? {
      EventSlipsIff(t, next, tolerant);
      EventSafeIff(t, next, tolerant);
    } else {
      RefusedIsNear(t.pin);
    }
  }

  /** An update that is refused is not more than half a turn after the limit. */
  lemma RefusedIsNear(p: Pin)
    requires !p.ending && |p.mq| > 1 && Limited(p, p.mq[0].value) && PwmEvent(p).None?
    ensures Low(p.mq[1].waketime - p.waketime) <= p.maxDuration + HALF
  {
    hide Before, Low;
    var w, now, limit := p.mq[1].waketime, p.waketime, p.waketime + p.maxDuration;
    AtWord(w, now);
    SameWord(At(w, now), w, limit);
    BeforeWithinTurn(limit, At(w, now));
  }

  // ----- runs in which that cannot be -----

  /** Some other timer is due within the maximum whenever that of the pin rings. */
  predicate Attended(p: Pin, e: Event) {
    e.Fire? ==> e.next <= p.waketime + p.maxDuration
  }

  lemma AttendedJudged(t: Trace, e: Event)
    requires Enabled(t, e) && Attended(t.pin, e)
    ensures Judged(t, e)
  {
    hide Before, Low, TooClose;
    var p := t.pin;
    if e.Fire? && PwmEvent(p).Some? && Limited(p, p.mq[0].value) {
      var asked, limit := PwmEvent(p).value.waketime, p.waketime + p.maxDuration;
      AtItself(asked, p.waketime);
      if |p.mq| > 1 {
        AtWord(p.mq[1].waketime, p.waketime);
        SameWord(asked, p.mq[1].waketime, limit);
        BeforeWithinTurn(limit, asked);
        if limit < asked { FarTooClose(asked, p.waketime, e.next, limit); }
      }
    }
  }

  ghost predicate AllAttended(start: Pin, es: seq<Event>) {
    es != [] ==>
      && AllAttended(start, es[..|es|-1])
      && var r, e := Run(start, es[..|es|-1]), es[|es|-1];
         (r.Some? && Enabled(r.value, e) ==> Attended(r.value.pin, e))
  }

  /** In every run with such timers the promise is kept, whatever words the updates have. */
  lemma {:induction false} RunSafe(value: int, defaultValue: int, maxDuration: Word, es: seq<Event>)
    requires AllAttended(Config(value, defaultValue, maxDuration), es)
    ensures var r := Run(Config(value, defaultValue, maxDuration), es); r.Some? ==> Kept(r.value) && Anchored(r.value)
  {
    hide Kept, Anchored, Judged, Enabled, Next, Made, Attended;
    var start := Config(value, defaultValue, maxDuration);
    if es == [] {
      StartKept(value, defaultValue, maxDuration);
    } else {
      RunSafe(value, defaultValue, maxDuration, es[..|es|-1]);
      var r, e := Run(start, es[..|es|-1]), es[|es|-1];
      if r.Some? && Enabled(r.value, e) {
        AttendedJudged(r.value, e);
        StepSafeIff(r.value, e);
      }
    }
  }

  // ----- when updates take effect -----

  /** The timer waits for the first update in the queue. */
  ghost predicate Timed(p: Pin) {
    && (p.mq != [] ==> p.scheduled && !p.ending && Low(p.waketime) == p.mq[0].waketime)
    && (p.scheduled && !p.ending ==> p.mq != [])
  }

  lemma WordIsLow(w: Word)
    ensures Low(w) == w
  {
  }

  lemma NextTimed(t: Trace, e: Event)
    requires Timed(t.pin) && Enabled(t, e) && Next(t.pin, e).Some?
    ensures Timed(Next(t.pin, e).value)
  {
    hide Before, TooClose, At;
    var p := t.pin;
    match e
    case Fire(next, tolerant) =>
      var a := PwmEvent(p).value;
      if a.mq != [] {
        AtWord(a.mq[0].waketime, p.waketime);
        WordIsLow(a.mq[0].waketime);
      }
      AtWord(a.waketime, p.waketime);
      WrapMultiple(At(a.waketime, p.waketime), -1);
    case Queue(time, value, now, head) =>
      AtWord(time, now);
      WordIsLow(time);
  }

  /** An update that was made into a setting, and the clock at which. */
  datatype Load = Load(clock: int, update: Update)

  function LoadOf(p: Pin, e: Event): seq<Load> {
    if e.Fire? && !p.ending && p.mq != [] then [Load(p.waketime, p.mq[0])] else []
  }

  function UpdateOf(e: Event): seq<Update> {
    if e.Queue? then [Update(e.time, e.value)] else []
  }

  /** The loads of a run, and the updates it queued. */
  function Loads(start: Pin, es: seq<Event>): seq<Load> {
    if es == [] then []
    else
      var before, e := es[..|es|-1], es[|es|-1];
      var r := Run(start, before);
      Loads(start, before) + if r.Some? && Enabled(r.value, e) then LoadOf(r.value.pin, e) else []
  }

  function Updates(start: Pin, es: seq<Event>): seq<Update> {
    if es == [] then []
    else
      var before, e := es[..|es|-1], es[|es|-1];
      var r := Run(start, before);
      Updates(start, before) + if r.Some? && Enabled(r.value, e) then UpdateOf(e) else []
  }

  function UpdatesOf(loads: seq<Load>): (r: seq<Update>)
    ensures |r| == |loads| && forall i :: 0 <= i < |r| ==> r[i] == loads[i].update
  {
    seq(|loads|, i requires 0 <= i < |loads| => loads[i].update)
  }

  lemma NextQueue(t: Trace, e: Event)
    requires Enabled(t, e) && Next(t.pin, e).Some?
    ensures UpdatesOf(LoadOf(t.pin, e)) + Next(t.pin, e).value.mq == t.pin.mq + UpdateOf(e)
  {
    hide Before, At, TooClose, Low, PwmEvent;
    if e.Fire? {
      RungFields(PwmEvent(t.pin).value, t.pin.waketime, e.next, e.tolerant);
      EventFields(t.pin);
    }
  }

  /**
   Over every run the updates queued are those made into settings, in order, followed by those
   that still wait; and each was made at a clock that has the word of its update.
   */
  lemma {:induction false} UpdatesOnTime(value: int, defaultValue: int, maxDuration: Word, es: seq<Event>)
    requires Run(Config(value, defaultValue, maxDuration), es).Some?
    ensures var start := Config(value, defaultValue, maxDuration); var t := Run(start, es).value;
            && Timed(t.pin) && UpdatesOf(Loads(start, es)) + t.pin.mq == Updates(start, es)
            && forall l :: l in Loads(start, es) ==> Low(l.clock) == l.update.waketime
  {
    hide Next, Made, Enabled, Low, Timed, LoadOf, UpdateOf, UpdatesOf;
    var start := Config(value, defaultValue, maxDuration);
    if es == [] {
      StartTimed(value, defaultValue, maxDuration);
    } else {
      UpdatesOnTime(value, defaultValue, maxDuration, es[..|es|-1]);
      var t, e := Run(start, es[..|es|-1]).value, es[|es|-1];
      if Enabled(t, e) {
        NextTimed(t, e);
        LoadsOnTime(t, e);
        NextQueue(t, e);
        MadeMore(Loads(start, es[..|es|-1]), LoadOf(t.pin, e));
        Regroup(UpdatesOf(Loads(start, es[..|es|-1])), UpdatesOf(LoadOf(t.pin, e)), Next(t.pin, e).value.mq, t.pin.mq,
                UpdateOf(e));
      }
    }
  }

  lemma StartTimed(value: int, defaultValue: int, maxDuration: Word)
    ensures Timed(Config(value, defaultValue, maxDuration)) && UpdatesOf([]) == []
  {
  }

  lemma LoadsOnTime(t: Trace, e: Event)
    requires Timed(t.pin) && Enabled(t, e)
    ensures forall l :: l in LoadOf(t.pin, e) ==> Low(l.clock) == l.update.waketime
  {
    hide Low;
  }

  lemma MadeMore(a: seq<Load>, b: seq<Load>)
    ensures UpdatesOf(a + b) == UpdatesOf(a) + UpdatesOf(b)
  {
  }

  lemma Regroup(a: seq<Update>, b: seq<Update>, c: seq<Update>, d: seq<Update>, e: seq<Update>)
    requires b + c == d + e
    ensures a + b + c == a + d + e
  {
    assert a + b + c == a + (b + c) && a + d + e == a + (d + e);
  }

  // ----- a promise broken -----

  function Then(r: Option<Trace>, e: Event): Option<Trace> {
    if r.None? then None else Step(r.value, e)
  }

  lemma RunThen(start: Pin, es: seq<Event>, e: Event)
    ensures Run(start, []) == Some(Trace(start, [])) && Run(start, es + [e]) == Then(Run(start, es), e)
  {
    hide Step;
    assert (es + [e])[..|es|] == es;
  }

  lemma RunOfFour(start: Pin, e0: Event, e1: Event, e2: Event, e3: Event)
    ensures Run(start, [e0, e1, e2, e3]) == Then(Then(Then(Then(Some(Trace(start, [])), e0), e1), e2), e3)
  {
    hide Run, Then;
    assert [] + [e0] == [e0] && [e0] + [e1] == [e0, e1] && [e0, e1] + [e2] == [e0, e1, e2];
    assert [e0, e1, e2] + [e3] == [e0, e1, e2, e3];
    RunThen(start, [], e0);
    RunThen(start, [e0], e1);
    RunThen(start, [e0, e1], e2);
    RunThen(start, [e0, e1, e2], e3);
  }

  lemma BothWait()
    ensures var t := Then(Then(Some(Trace(Config(0, 0, 100), [])), Queue(0, 1, 0, 0)), Queue(101 + HALF, 0, 0, 0));
            t == Some(Trace(Pin(false, true, 0, 0, 0, 100, [Update(0, 1), Update(101 + HALF, 0)]), []))
  {
    hide TooClose, Before, At;
    AtItself(0, 0);
    NearRings(0, 0, 0);
    var t, none: seq<Setting> := Then(Some(Trace(Config(0, 0, 100), [])), Queue(0, 1, 0, 0)), [];
    assert none + [] == none;
    assert [] + [Update(0, 1)] == [Update(0, 1)];
    assert t == Some(Trace(Pin(false, true, 0, 0, 0, 100, [Update(0, 1)]), []));
    assert [Update(0, 1)] + [Update(101 + HALF, 0)] == [Update(0, 1), Update(101 + HALF, 0)];
  }

  lemma FirstMade(next: int, tolerant: bool)
    requires 0 <= next < HALF
    ensures var p := Pin(false, true, 0, 0, 0, 100, [Update(0, 1), Update(101 + HALF, 0)]);
            var wake := if 101 < next then 101 + HALF else 101 - HALF;
            Step(Trace(p, []), Fire(next, tolerant)) ==
              if 101 < next || tolerant
              then Some(Trace(Pin(false, true, wake, 1, 0, 100, [Update(101 + HALF, 0)]), [Setting(0, true)])) else None
  {
    hide TooClose, Before, At;
    var p := Pin(false, true, 0, 0, 0, 100, [Update(0, 1), Update(101 + HALF, 0)]);
    BeforeWithinTurn(100, 101 + HALF);
    AtItself(101 + HALF, 0);
    TooCloseExact(101 + HALF, 0, next);
    assert p.mq[1..] == [Update(101 + HALF, 0)];
    assert PwmEvent(p) == Some(Pin(false, true, 101 + HALF, 1, 0, 100, [Update(101 + HALF, 0)]));
    assert [] + [Setting(0, true)] == [Setting(0, true)];
  }

  lemma SecondMade(wake: int, later: int, tolerant: bool)
    requires wake <= later
    ensures var q := Pin(false, true, wake, 1, 0, 100, [Update(101 + HALF, 0)]);
            var r := Step(Trace(q, [Setting(0, true)]), Fire(later, tolerant));
            r.Some? && r.value.settings == [Setting(0, true), Setting(wake, false)]
  {
    hide TooClose, Before, Low;
    assert [Setting(0, true)] + [Setting(wake, false)] == [Setting(0, true), Setting(wake, false)];
  }

  /** A run that breaks the promise in the same way as for digital outputs, and exactly when it does. */
  lemma LateUpdateSlips(next: int, later: int, tolerant: bool)
    requires 0 <= next < HALF && 101 + HALF <= later
    ensures var es := [Queue(0, 1, 0, 0), Queue(101 + HALF, 0, 0, 0), Fire(next, tolerant), Fire(later, tolerant)];
            var r := Run(Config(0, 0, 100), es);
            && (r.Some? && !InTime(r.value.settings, 100) <==> 101 < next)
            && (101 < next ==> r.Some? && r.value.settings == [Setting(0, true), Setting(101 + HALF, false)])
  {
    hide Run, Step, TooClose;
    RunOfFour(Config(0, 0, 100), Queue(0, 1, 0, 0), Queue(101 + HALF, 0, 0, 0), Fire(next, tolerant),
              Fire(later, tolerant));
    BothWait();
    FirstMade(next, tolerant);
    SecondMade(if 101 < next then 101 + HALF else 101 - HALF, later, tolerant);
    var settings := [Setting(0, true), Setting(101 + HALF, false)];
    assert settings[1 - 1].risky && settings[1].clock > settings[1 - 1].clock + 100;
  }
}
