/** Digital outputs, plain or pulsed by software. */
module DigitalOut {
  import opened Word32
  import opened Wrappers
  import opened TimerOrder
  import opened PinSafety

  datatype Update = Update(waketime: Word, onDuration: Word)

  datatype Func = LoadFunc | ToggleFunc

  datatype Pin = Pin(
    func: Func, scheduled: bool, waketime: int, endTime: int, on: bool, toggling: bool, checkEnd: bool,
    defaultOn: bool, onDuration: Word, offDuration: Word, maxDuration: Word, cycleTime: Word, mq: seq<Update>)

  function Config(value: bool, defaultOn: bool, maxDuration: Word): Pin {
    Pin(LoadFunc, false, 0, 0, value, false, false, defaultOn, 0, 0, maxDuration, 0, [])
  }

  function ToggleEvent(d: Pin): Pin {
    var on := !d.on;
    var wake := d.waketime + if on then d.onDuration else d.offDuration;
    if d.checkEnd && !Before(wake, d.endTime) then d.(on := on, func := LoadFunc, waketime := d.endTime)
    else d.(on := on, waketime := wake)
  }

  /** Whether the output pulses with the given on time. */
  predicate Pulses(d: Pin, onDuration: Word) { 0 < onDuration < d.cycleTime }

  predicate Risky(d: Pin, onDuration: Word) {
    Pulses(d, onDuration) || (onDuration > 0) != d.defaultOn
  }

  /** Whether the safety limit applies to a setting. */
  predicate Limited(d: Pin, onDuration: Word) {
    Risky(d, onDuration) && d.maxDuration > 0
  }

  /** The end of the new setting: the safety limit, or the next update if that is in time; None is a shutdown. */
  function EndOf(d: Pin, m: Update, rest: seq<Update>): Option<(int, bool)> {
    var limited := Limited(d, m.onDuration);
    var limit := d.waketime + d.maxDuration;
    if rest == [] then Some((if limited then limit else 0, limited))
    else if limited && Before(limit, rest[0].waketime) then None
    else Some((At(rest[0].waketime, d.waketime), true))
  }

  /** The next event that a setting asks for. */
  function Arm(d: Pin, onDuration: Word): Pin {
    if !d.toggling then if !d.checkEnd then d.(scheduled := false) else d.(waketime := d.endTime)
    else
      var wake := d.waketime + onDuration;
      if d.checkEnd && !Before(wake, d.endTime) then d.(waketime := d.endTime)
      else
        d.(func := ToggleFunc, waketime := wake, onDuration := onDuration,
           offDuration := Low(d.cycleTime - onDuration))
  }

  /** None is a shutdown. */
  function LoadEvent(d: Pin): Option<Pin> {
    if d.mq == [] then None
    else
      var m, rest := d.mq[0], d.mq[1..];
      var e := EndOf(d, m, rest);
      if e.None? then None
      else
        var (end, check) := e.value;
        Some(Arm(d.(mq := rest, on := m.onDuration > 0, toggling := Pulses(d, m.onDuration), checkEnd := check,
                    endTime := end), m.onDuration))
  }

  /** An update that comes at the clock `now`, when the list of timers without that of the pin begins at the clock
      `head`.  None is a shutdown by the pin or by the scheduler. */
  function QueueOut(d: Pin, time: Word, onDuration: Word, now: int, head: int): Option<Pin> {
    var t := d.(mq := d.mq + [Update(time, onDuration)]);
    if d.mq != [] then Some(t)
    else if d.checkEnd && Before(d.endTime, time) then None
    else
      var u := t.(endTime := At(time, now), checkEnd := true);
      if d.toggling && Before(d.waketime, time) then Some(u)
      else if TooClose(time, now, head) then None
      else Some(u.(scheduled := true, waketime := At(time, now), func := LoadFunc))
  }

  function UpdateOut(d: Pin, value: bool, now: int, head: int): Option<Pin> {
    if d.mq != [] then None
    else
      var t := d.(on := value, toggling := false);
      var end := now + d.maxDuration;
      if value != d.defaultOn && d.maxDuration > 0 then
        if TooClose(end, now, head) then None
        else Some(t.(scheduled := true, waketime := end, endTime := end, func := LoadFunc, checkEnd := true))
      else Some(t.(scheduled := false, checkEnd := false))
  }

  function SetCycle(d: Pin, cycleTime: Word): Option<Pin> {
    if d.mq != [] then None else Some(d.(cycleTime := cycleTime))
  }

  /** The scheduler takes the timer in again, if it is to be called again. */
  function Rung(d: Pin, now: int, next: int, tolerant: bool): Option<Pin> {
    if !d.scheduled then Some(d)
    else
      var wake := Again(d.waketime, now, next, tolerant);
      if wake.None? then None else Some(d.(waketime := wake.value))
  }

  /** What a load asks for is taken for a clock that is past. */
  predicate LoadIsPast(d: Pin, next: int) {
    var n := LoadEvent(d);
    n.Some? && n.value.scheduled && TooClose(n.value.waketime, d.waketime, next)
  }

  // ----- runs -----

  datatype Event =
    | Fire(next: int, tolerant: bool)
    | Queue(time: Word, onDuration: Word, now: int, head: int)
    | Set(value: bool, now: int, head: int)
    | Cycle(cycleTime: Word)

  datatype Trace = Trace(pin: Pin, settings: seq<Setting>)

  /** A command comes after the last setting and before any timer that is due; the head of the list is not
      after the timer of the pin. */
  predicate Current(t: Trace, now: int, head: int) {
    && now <= head && (t.pin.scheduled ==> head <= t.pin.waketime)
    && (t.settings != [] ==> t.settings[|t.settings|-1].clock <= now)
  }

  predicate Enabled(t: Trace, e: Event) {
    match e
    case Fire(next, _) => t.pin.scheduled && t.pin.waketime <= next
    case Queue(_, _, now, head) => t.pin.mq == [] ==> Current(t, now, head)
    case Set(_, now, head) => t.pin.mq == [] ==> Current(t, now, head)
    case Cycle(_) => true
  }

  function Called(d: Pin): Option<Pin> {
    if d.func == ToggleFunc then Some(ToggleEvent(d)) else LoadEvent(d)
  }

  function Next(d: Pin, e: Event): Option<Pin> {
    match e
    case Fire(next, tolerant) =>
      var c := Called(d);
      if c.None? then None else Rung(c.value, d.waketime, next, tolerant)
    case Queue(time, on, now, head) => QueueOut(d, time, on, now, head)
    case Set(value, now, head) => UpdateOut(d, value, now, head)
    case Cycle(c) => SetCycle(d, c)
  }

  /** The settings an event makes. */
  function Made(d: Pin, e: Event): seq<Setting> {
    match e
    case Fire(_, _) =>
      if d.func == LoadFunc && d.mq != [] then [Setting(d.waketime, Risky(d, d.mq[0].onDuration))] else []
    case Set(value, now, _) => [Setting(now, value != d.defaultOn)]
    case _ => []
  }

  function Step(t: Trace, e: Event): Option<Trace> {
    if !Enabled(t, e) then Some(t)
    else
      var n := Next(t.pin, e);
      if n.None? then None else Some(Trace(n.value, t.settings + Made(t.pin, e)))
  }

  /** None is a shutdown. */
  function Run(start: Pin, es: seq<Event>): Option<Trace> {
    if es == [] then Some(Trace(start, []))
    else
      var r := Run(start, es[..|es|-1]);
      if r.None? then None else Step(r.value, es[|es|-1])
  }

  // ----- the promise -----

  /** So far every risky setting was followed in time, and the timer will ring by the deadline of the last one. */
  ghost predicate Kept(t: Trace) {
    Promise(t.settings, t.pin.maxDuration, t.pin.scheduled, t.pin.waketime)
  }

  /** With no update in the queue the end of a risky setting is its deadline. */
  ghost predicate Anchored(t: Trace) {
    AtRisk(t.settings, t.pin.maxDuration) && t.pin.mq == [] ==>
      t.pin.checkEnd && t.pin.endTime == Deadline(t.settings, t.pin.maxDuration)
  }

  /** What a setting with a limit asks for is met. */
  predicate LoadJudged(d: Pin, next: int)
    requires d.mq != []
  {
    Limited(d, d.mq[0].onDuration) && LoadEvent(d).Some? ==>
      Met(LoadEvent(d).value.waketime, d.waketime, next, d.waketime + d.maxDuration)
  }

  predicate ToggleJudged(t: Trace, next: int) {
    AtRisk(t.settings, t.pin.maxDuration) ==>
      Met(ToggleEvent(t.pin).waketime, t.pin.waketime, next, Deadline(t.settings, t.pin.maxDuration))
  }

  /** Only what a timer event asks for can be too late. */
  predicate Judged(t: Trace, e: Event) {
    e.Fire? ==>
      if t.pin.func == ToggleFunc then ToggleJudged(t, e.next) else t.pin.mq != [] ==> LoadJudged(t.pin, e.next)
  }

  // ----- commands -----

  /** An update is refused exactly when it is the first in the queue and is after the end by up to half a turn, or
      by that and whole turns, or when the scheduler finds its timer too close. */
  lemma QueueRefusedIff(d: Pin, time: Word, onDuration: Word, now: int, head: int)
    ensures QueueOut(d, time, onDuration, now, head).None? <==>
              d.mq == [] && (|| (d.checkEnd && 0 < Low(time - d.endTime) <= HALF)
                             || (!(d.toggling && Before(d.waketime, time)) && TooClose(time, now, head)))
  {
    hide Before, Low;
    BeforeExact(d.endTime, time);
  }

  /** Every update keeps the promise, whatever its word: it comes in time or there is a shutdown. */
  lemma UpdateKeepsPromise(t: Trace, time: Word, onDuration: Word, now: int, head: int)
    requires Kept(t) && Enabled(t, Queue(time, onDuration, now, head))
    requires Anchored(t)
    ensures var n := QueueOut(t.pin, time, onDuration, now, head); n.None? || Kept(Trace(n.value, t.settings))
  {
    hide Before, At, InTime, TooClose;
    if AtRisk(t.settings, t.pin.maxDuration) && t.pin.mq == [] {
      UpdateInTime(time, now, head, t.pin.endTime);
    }
  }

  /** An update that comes after the next toggle leaves the pulses as they are, up to its own clock. */
  lemma PulsingGoesOn(d: Pin, time: Word, onDuration: Word, now: int, head: int)
    requires d.mq == [] && d.toggling && Before(d.waketime, time) && QueueOut(d, time, onDuration, now, head).Some?
    ensures var n := QueueOut(d, time, onDuration, now, head).value;
            n == d.(mq := [Update(time, onDuration)], endTime := At(time, now), checkEnd := true)
  {
    hide Before, At, TooClose;
  }

  lemma SetKeepsPromise(t: Trace, value: bool, now: int, head: int)
    requires Kept(t) && Enabled(t, Set(value, now, head))
    ensures var n := UpdateOut(t.pin, value, now, head);
            n.None? || Kept(Trace(n.value, t.settings + [Setting(now, value != t.pin.defaultOn)]))
  {
    hide TooClose, InTime;
    if t.pin.mq == [] {
      var s := Setting(now, value != t.pin.defaultOn);
      InTimeSnoc(t.settings, t.pin.maxDuration, t.pin.scheduled, t.pin.waketime, s);
    }
  }

  // ----- timer events -----

  /** Loading a setting is a shutdown exactly when the update after it is late by up to half a turn, or by that and
      whole turns. */
  lemma LoadRefusedIff(d: Pin)
    requires d.mq != []
    ensures LoadEvent(d).None? <==>
              |d.mq| > 1 && Limited(d, d.mq[0].onDuration)
              && 0 < Low(d.mq[1].waketime - (d.waketime + d.maxDuration)) <= HALF
  {
    hide Before, Low;
    if |d.mq| > 1 { BeforeExact(d.waketime + d.maxDuration, d.mq[1].waketime); }
  }

  /** A toggle is replaced by the load at the end of the setting exactly when it is not before the end by up to
      half a turn. */
  lemma ToggleEndsIff(d: Pin)
    ensures var wake := d.waketime + if d.on then d.offDuration else d.onDuration;
            ToggleEvent(d) ==
              if d.checkEnd && Low(wake - d.endTime) < HALF
              then d.(on := !d.on, func := LoadFunc, waketime := d.endTime) else d.(on := !d.on, waketime := wake)
  {
    LowDifference(d.waketime + if d.on then d.offDuration else d.onDuration, d.endTime);
  }

  lemma ArmFields(d: Pin, onDuration: Word)
    ensures var a := Arm(d, onDuration);
            && a.checkEnd == d.checkEnd && a.endTime == d.endTime && a.mq == d.mq && a.maxDuration == d.maxDuration
            && (d.checkEnd && d.scheduled ==> a.scheduled) && a.on == d.on
  {
    hide Before;
  }

  lemma LoadFields(d: Pin)
    requires d.mq != [] && LoadEvent(d).Some? && d.scheduled
    ensures var a := LoadEvent(d).value; var limited := Limited(d, d.mq[0].onDuration);
            && a.mq == d.mq[1..] && a.maxDuration == d.maxDuration && (limited ==> a.scheduled && a.checkEnd)
            && (limited && a.mq == [] ==> a.endTime == d.waketime + d.maxDuration)
            && a.on == (d.mq[0].onDuration > 0)
  {
    hide Before, Arm, At;
    var m, rest := d.mq[0], d.mq[1..];
    var (end, check) := EndOf(d, m, rest).value;
    ArmFields(d.(mq := rest, on := m.onDuration > 0, toggling := Pulses(d, m.onDuration), checkEnd := check,
                 endTime := end), m.onDuration);
  }

  lemma RungMeets(d: Pin, now: int, next: int, tolerant: bool, deadline: int)
    requires d.scheduled && now <= deadline
    ensures var r := Rung(d, now, next, tolerant);
            (r.None? || (r.value.scheduled && r.value.waketime <= deadline)) <==> Met(d.waketime, now, next, deadline)
  {
    hide Again, Met;
    AgainMeets(d.waketime, now, next, tolerant, deadline);
  }

  lemma RungFields(d: Pin, now: int, next: int, tolerant: bool)
    ensures var r := Rung(d, now, next, tolerant); r.Some? ==> r.value == d.(waketime := r.value.waketime)
  {
    hide Again;
  }

  /** What a load does to the promise. */
  lemma LoadSafeIff(t: Trace, next: int, tolerant: bool)
    requires Kept(t) && t.pin.scheduled && t.pin.func == LoadFunc && t.pin.mq != [] && LoadEvent(t.pin).Some?
    ensures var e := Fire(next, tolerant); var n := Next(t.pin, e);
            (n.None? || Kept(Trace(n.value, t.settings + Made(t.pin, e)))) <==> LoadJudged(t.pin, next)
    ensures var e := Fire(next, tolerant); var n := Next(t.pin, e);
            n.Some? ==> Anchored(Trace(n.value, t.settings + Made(t.pin, e)))
  {
    hide LoadEvent, InTime, Met, Rung, Risky;
    var d, e := t.pin, Fire(next, tolerant);
    var a := LoadEvent(d).value;
    LoadFields(d);
    RungFields(a, d.waketime, next, tolerant);
    InTimeSnoc(t.settings, d.maxDuration, d.scheduled, d.waketime, Made(d, e)[0]);
    if Limited(d, d.mq[0].onDuration) {
      RungMeets(a, d.waketime, next, tolerant, d.waketime + d.maxDuration);
    }
  }

  lemma ToggleSafeIff(t: Trace, next: int, tolerant: bool)
    requires Kept(t) && Anchored(t) && t.pin.scheduled && t.pin.func == ToggleFunc
    ensures var n := Next(t.pin, Fire(next, tolerant));
            (n.None? || Kept(Trace(n.value, t.settings))) <==> ToggleJudged(t, next)
    ensures var n := Next(t.pin, Fire(next, tolerant)); n.Some? ==> Anchored(Trace(n.value, t.settings))
  {
    hide InTime, Met, Rung, Before;
    var d := t.pin;
    RungFields(ToggleEvent(d), d.waketime, next, tolerant);
    if AtRisk(t.settings, d.maxDuration) {
      RungMeets(ToggleEvent(d), d.waketime, next, tolerant, Deadline(t.settings, d.maxDuration));
    }
  }

  // ----- every step -----

  lemma CommandAnchored(t: Trace, e: Event)
    requires Anchored(t) && !e.Fire? && Next(t.pin, e).Some?
    ensures Anchored(Trace(Next(t.pin, e).value, t.settings + Made(t.pin, e)))
  {
    hide Before, At, TooClose;
    assert t.settings + [] == t.settings;
  }

  /** A step keeps the promise, or shuts down, exactly when what it asks for is met; commands always do. */
  lemma StepSafeIff(t: Trace, e: Event)
    requires Kept(t) && Anchored(t) && Enabled(t, e)
    ensures var n := Step(t, e); (n.None? || Kept(n.value)) <==> Judged(t, e)
    ensures var n := Step(t, e); n.Some? ==> Anchored(n.value)
  {
    hide Kept, Anchored, QueueOut, UpdateOut, LoadJudged, ToggleJudged, LoadEvent, ToggleEvent, Rung;
    assert t.settings + [] == t.settings;
    if !e.Fire? && Next(t.pin, e).Some? { CommandAnchored(t, e); }
    match e
    case Fire(next, tolerant) =>
      if t.pin.func == ToggleFunc {
        ToggleSafeIff(t, next, tolerant);
      } else if t.pin.mq != [] {
        if LoadEvent(t.pin).Some? { LoadSafeIff(t, next, tolerant); } else { NothingLoaded(t.pin, next); }
      } else {
        NothingToLoad(t.pin);
      }
    case Queue(time, on, now, head) => UpdateKeepsPromise(t, time, on, now, head);
    case Set(value, now, head) => SetKeepsPromise(t, value, now, head);
    case Cycle(c) => CycleKept(t, c);
  }

  lemma NothingToLoad(d: Pin)
    requires d.mq == []
    ensures LoadEvent(d).None?
  {
  }

  lemma NothingLoaded(d: Pin, next: int)
    requires d.mq != [] && LoadEvent(d).None?
    ensures LoadJudged(d, next)
  {
  }

  lemma CycleKept(t: Trace, c: Word)
    requires Kept(t)
    ensures SetCycle(t.pin, c).Some? ==> Kept(Trace(SetCycle(t.pin, c).value, t.settings))
  {
  }

  // ----- every run -----

  ghost predicate AlwaysKept(start: Pin, es: seq<Event>) {
    && (es != [] ==> AlwaysKept(start, es[..|es|-1]))
    && (Run(start, es).Some? ==> Kept(Run(start, es).value))
  }

  /** No event of the run asks for a clock that is too late and gets it. */
  ghost predicate AllJudged(start: Pin, es: seq<Event>) {
    es != [] ==>
      && AllJudged(start, es[..|es|-1])
      && var r, e := Run(start, es[..|es|-1]), es[|es|-1];
         (r.Some? && Enabled(r.value, e) ==> Judged(r.value, e))
  }

  lemma StartKept(value: bool, defaultOn: bool, maxDuration: Word)
    ensures var t := Trace(Config(value, defaultOn, maxDuration), []); Kept(t) && Anchored(t)
  {
  }

  /**
   In every run, whatever the words and durations: all along every risky setting was followed
   within the maximum and the timer rings in time for the last one, or there is a shutdown, if
   and only if no timer event asks for a clock that is too late and gets it.
   */
  lemma {:induction false} RunSafeIff(value: bool, defaultOn: bool, maxDuration: Word, es: seq<Event>)
    ensures var start := Config(value, defaultOn, maxDuration);
            && (AlwaysKept(start, es) <==> AllJudged(start, es))
            && (AlwaysKept(start, es) && Run(start, es).Some? ==> Anchored(Run(start, es).value))
  {
    hide Kept, Anchored, Judged, Enabled, Next, Made;
    var start := Config(value, defaultOn, maxDuration);
    if es == [] {
      StartKept(value, defaultOn, maxDuration);
    } else {
      RunSafeIff(value, defaultOn, maxDuration, es[..|es|-1]);
      var r, e := Run(start, es[..|es|-1]), es[|es|-1];
      if AlwaysKept(start, es[..|es|-1]) && r.Some? && Enabled(r.value, e) {
        StepSafeIff(r.value, e);
      }
    }
  }

  // ----- when a timer event asks for too late a clock -----

  /** When what a plain setting with a limit asks for is not met, while another update waits. */
  lemma LoadSlipsIff(d: Pin, next: int)
    requires |d.mq| > 1 && Limited(d, d.mq[0].onDuration) && !Pulses(d, d.mq[0].onDuration) && LoadEvent(d).Some?
    requires d.waketime <= next < d.waketime + HALF
    ensures !LoadJudged(d, next) <==>
              && d.maxDuration + HALF < Low(d.mq[1].waketime - d.waketime)
              && At(d.mq[1].waketime, d.waketime) < next + HALF
  {
    hide Before, Low, TooClose;
    var w, now := d.mq[1].waketime, d.waketime;
    var t := At(w, now);
    assert LoadEvent(d).value.waketime == t;
    AtItself(t, now);
    AtWord(w, now);
    SameClose(t, w, now, next);
    LateIff(w, now, next, now + d.maxDuration);
  }

  /**
   A plain setting with a limit, loaded while another update waits, keeps the promise or shuts
   down, unless that update is more than half a turn after the limit and the timer behind is
   less than half a turn before the update.
   */
  lemma LoadKeepsPromiseIff(t: Trace, next: int, tolerant: bool)
    requires Kept(t) && t.pin.scheduled && t.pin.func == LoadFunc
    requires |t.pin.mq| > 1 && Limited(t.pin, t.pin.mq[0].onDuration) && !Pulses(t.pin, t.pin.mq[0].onDuration)
    requires t.pin.waketime <= next < t.pin.waketime + HALF
    ensures var d := t.pin; var e := Fire(next, tolerant); var n := Next(d, e);
            (n.None? || Kept(Trace(n.value, t.settings + Made(d, e)))) <==>
              !(&& d.maxDuration + HALF < Low(d.mq[1].waketime - d.waketime)
                && At(d.mq[1].waketime, d.waketime) < next + HALF)
  {
    hide LoadEvent, Rung, Kept, LoadJudged, Low, At;
    if LoadEvent(t.pin).Some? {
      LoadSlipsIff(t.pin, next);
      LoadSafeIff(t, next, tolerant);
    } else {
      LoadRefusedIff(t.pin);
      RefusedIsNear(t.pin);
    }
  }

  /** An update that is refused at the load is not more than half a turn after the limit. */
  lemma RefusedIsNear(d: Pin)
    requires |d.mq| > 1 && Limited(d, d.mq[0].onDuration) && LoadEvent(d).None?
    ensures Low(d.mq[1].waketime - d.waketime) <= d.maxDuration + HALF
  {
    hide Before, Low;
    var w, now, limit := d.mq[1].waketime, d.waketime, d.waketime + d.maxDuration;
    AtWord(w, now);
    SameWord(At(w, now), w, limit);
    BeforeWithinTurn(limit, At(w, now));
  }

  /** A pulsing setting with no update behind it breaks the promise if and only if its on time is at least half a
      turn more than the maximum and the timer behind is less than half a turn before its first toggle. */
  lemma PulseSlipsIff(d: Pin, next: int)
    requires |d.mq| == 1 && Pulses(d, d.mq[0].onDuration) && d.maxDuration > 0
    requires d.waketime <= next < d.waketime + HALF
    ensures !LoadJudged(d, next) <==>
              var on := d.mq[0].onDuration; d.maxDuration + HALF <= on && d.waketime + on < next + HALF
  {
    hide Before, Low, TooClose;
    var on, limit := d.mq[0].onDuration, d.waketime + d.maxDuration;
    BeforeWithinTurn(d.waketime + on, limit);
    AtItself(d.waketime + on, d.waketime);
    AtItself(limit, d.waketime);
    TooCloseExact(d.waketime + on, d.waketime, next);
  }

  /** A toggle does so if and only if the next one is after the deadline, at least half a turn after the end of
      the setting, and the timer behind is less than half a turn before it. */
  lemma ToggleSlipsIff(t: Trace, next: int)
    requires AtRisk(t.settings, t.pin.maxDuration) && t.pin.checkEnd
    requires var end := Deadline(t.settings, t.pin.maxDuration);
             t.pin.waketime < t.pin.endTime <= end < t.pin.waketime + TWO32
    requires t.pin.waketime <= next < t.pin.waketime + HALF
    ensures var d := t.pin; var wake := d.waketime + if d.on then d.offDuration else d.onDuration;
            !ToggleJudged(t, next) <==>
              Deadline(t.settings, d.maxDuration) < wake && d.endTime + HALF <= wake < next + HALF
  {
    hide Before, Low, TooClose;
    var d := t.pin;
    var wake := d.waketime + if d.on then d.offDuration else d.onDuration;
    BeforeWithinTurn(wake, d.endTime);
    AtItself(wake, d.waketime);
    AtItself(d.endTime, d.waketime);
    TooCloseExact(wake, d.waketime, next);
  }

  // ----- runs in which that cannot be -----

  /** Cycles are short, and some other timer is due within the maximum whenever that of the pin rings; the periodic
      timer of the scheduler is one if the maximum is at least its period. */
  predicate Attended(d: Pin, e: Event) {
    d.maxDuration > 0 ==>
      match e
      case Fire(next, _) => next <= d.waketime + d.maxDuration
      case Cycle(c) => c < HALF && c <= d.maxDuration
      case _ => true
  }

  /** A pulsing output has its next toggle before the end of the setting, which is not after the deadline. */
  ghost predicate Steady(t: Trace) {
    var d := t.pin;
    d.maxDuration > 0 ==>
      && d.onDuration < HALF && d.offDuration < HALF && d.cycleTime < HALF && d.cycleTime <= d.maxDuration
      && (AtRisk(t.settings, d.maxDuration) && d.scheduled && d.func == ToggleFunc ==>
            && d.checkEnd && d.endTime <= Deadline(t.settings, d.maxDuration)
            && t.settings[|t.settings|-1].clock <= d.waketime < d.endTime)
  }

  /** Where the end of a setting with a limit may be. */
  lemma EndInReach(d: Pin)
    requires d.mq != [] && Limited(d, d.mq[0].onDuration) && LoadEvent(d).Some?
    ensures var e := EndOf(d, d.mq[0], d.mq[1..]); var limit := d.waketime + d.maxDuration;
            && e.Some? && e.value.1 && d.waketime <= e.value.0 < d.waketime + TWO32
            && (e.value.0 <= limit || limit + HALF < e.value.0)
  {
    hide Before, Low;
    if |d.mq| > 1 {
      var w, now, limit := d.mq[1].waketime, d.waketime, d.waketime + d.maxDuration;
      AtWord(w, now);
      SameWord(At(w, now), w, limit);
      BeforeWithinTurn(limit, At(w, now));
    }
  }

  /** What a load with a short cycle asks for: its first toggle, before the end, or the end. */
  lemma LoadAsks(d: Pin)
    requires d.mq != [] && Limited(d, d.mq[0].onDuration) && LoadEvent(d).Some? && d.func == LoadFunc
    requires d.cycleTime < HALF && d.cycleTime <= d.maxDuration
    ensures var a := LoadEvent(d).value; var limit := d.waketime + d.maxDuration;
            if a.func == ToggleFunc
            then a.checkEnd && d.waketime <= a.waketime < a.endTime <= limit && a.waketime < d.waketime + HALF
            else d.waketime <= a.waketime < d.waketime + TWO32
                 && (a.waketime <= limit || limit + HALF < a.waketime)
  {
    hide Before, EndOf, Low;
    EndInReach(d);
    var m := d.mq[0];
    var (end, check) := EndOf(d, m, d.mq[1..]).value;
    if Pulses(d, m.onDuration) { BeforeWithinTurn(d.waketime + m.onDuration, end); }
  }

  lemma LoadDurations(d: Pin)
    requires d.mq != [] && LoadEvent(d).Some? && d.cycleTime < HALF && d.onDuration < HALF && d.offDuration < HALF
    ensures var a := LoadEvent(d).value; a.onDuration < HALF && a.offDuration < HALF && a.cycleTime == d.cycleTime
  {
    hide Before, EndOf;
  }

  lemma LoadSteady(t: Trace, next: int, tolerant: bool)
    requires Steady(t) && Enabled(t, Fire(next, tolerant)) && Attended(t.pin, Fire(next, tolerant))
    requires t.pin.func == LoadFunc && t.pin.mq != [] && LoadEvent(t.pin).Some?
    ensures LoadJudged(t.pin, next)
    ensures var e := Fire(next, tolerant); var n := Next(t.pin, e);
            n.Some? ==> Steady(Trace(n.value, t.settings + Made(t.pin, e)))
  {
    hide LoadEvent, TooClose, Low, Risky, At, Rings;
    var d := t.pin;
    var a := LoadEvent(d).value;
    LoadFields(d);
    RungFields(a, d.waketime, next, tolerant);
    if d.maxDuration > 0 {
      LoadDurations(d);
      if Limited(d, d.mq[0].onDuration) {
        LoadAsks(d);
        AtItself(a.waketime, d.waketime);
        if a.func == ToggleFunc {
          NearRings(a.waketime, d.waketime, next);
        } else if a.waketime > d.waketime + d.maxDuration {
          FarTooClose(a.waketime, d.waketime, next, d.waketime + d.maxDuration);
        }
      }
    }
  }

  lemma ToggleSteady(t: Trace, next: int, tolerant: bool)
    requires Steady(t) && t.pin.scheduled && t.pin.func == ToggleFunc
    ensures ToggleJudged(t, next)
    ensures var n := Next(t.pin, Fire(next, tolerant)); n.Some? ==> Steady(Trace(n.value, t.settings))
  {
    hide Before, TooClose, Low, At, Rings;
    var d, a := t.pin, ToggleEvent(t.pin);
    RungFields(a, d.waketime, next, tolerant);
    if AtRisk(t.settings, d.maxDuration) {
      var wake := d.waketime + if d.on then d.offDuration else d.onDuration;
      BeforeWithinTurn(wake, d.endTime);
      AtItself(a.waketime, d.waketime);
      NearRings(wake, d.waketime, next);
    }
  }

  lemma QueueSteady(t: Trace, time: Word, onDuration: Word, now: int, head: int)
    requires Kept(t) && Anchored(t) && Steady(t) && Enabled(t, Queue(time, onDuration, now, head))
    ensures var n := QueueOut(t.pin, time, onDuration, now, head); n.Some? ==> Steady(Trace(n.value, t.settings))
  {
    hide Before, TooClose, At, InTime;
    var d := t.pin;
    if AtRisk(t.settings, d.maxDuration) && d.mq == [] && d.func == ToggleFunc {
      ToggledUpdateInTime(time, now, d.waketime, d.endTime);
    }
  }

  lemma StepSteady(t: Trace, e: Event)
    requires Kept(t) && Anchored(t) && Steady(t) && Enabled(t, e) && Attended(t.pin, e)
    ensures Judged(t, e) && (Step(t, e).Some? ==> Steady(Step(t, e).value))
  {
    hide Kept, Anchored, QueueOut, LoadJudged, ToggleJudged, LoadEvent, ToggleEvent, Rung, TooClose;
    assert t.settings + [] == t.settings;
    match e
    case Fire(next, tolerant) =>
      if t.pin.func == ToggleFunc {
        ToggleSteady(t, next, tolerant);
      } else if t.pin.mq != [] {
        if LoadEvent(t.pin).Some? { LoadSteady(t, next, tolerant); } else { NothingLoaded(t.pin, next); }
      } else {
        NothingToLoad(t.pin);
      }
    case Queue(time, on, now, head) => QueueSteady(t, time, on, now, head);
    case Set(value, now, head) =>
    case Cycle(c) =>
  }

  ghost predicate AllAttended(start: Pin, es: seq<Event>) {
    es != [] ==>
      && AllAttended(start, es[..|es|-1])
      && var r, e := Run(start, es[..|es|-1]), es[|es|-1];
         (r.Some? && Enabled(r.value, e) ==> Attended(r.value.pin, e))
  }

  /** In every run with such cycles and timers the promise is kept, whatever words the updates have. */
  lemma {:induction false} RunSafe(value: bool, defaultOn: bool, maxDuration: Word, es: seq<Event>)
    requires AllAttended(Config(value, defaultOn, maxDuration), es)
    ensures var r := Run(Config(value, defaultOn, maxDuration), es);
            r.Some? ==> Kept(r.value) && Anchored(r.value) && Steady(r.value)
  {
    hide Kept, Anchored, Steady, Judged, Enabled, Next, Made, Attended;
    var start := Config(value, defaultOn, maxDuration);
    if es == [] {
      StartKept(value, defaultOn, maxDuration);
      StartSteady(value, defaultOn, maxDuration);
    } else {
      RunSafe(value, defaultOn, maxDuration, es[..|es|-1]);
      var r, e := Run(start, es[..|es|-1]), es[|es|-1];
      if r.Some? && Enabled(r.value, e) {
        StepSteady(r.value, e);
        StepSafeIff(r.value, e);
      }
    }
  }

  lemma StartSteady(value: bool, defaultOn: bool, maxDuration: Word)
    ensures Steady(Trace(Config(value, defaultOn, maxDuration), []))
  {
  }

  // ----- a promise broken -----

  function Then(r: Option<Trace>, e: Event): Option<Trace> {
    if r.None? then None else Step(r.value, e)
  }

  lemma RunThen(start: Pin, es: seq<Event>, e: Event)
    ensures Run(start, []) == Some(Trace(start, [])) && Run(start, es + [e]) == Then(Run(start, es), e)
  {
    hide Step;
    assert (es + [e])[..|es|] == es;
  }

  lemma RunOfFour(start: Pin, e0: Event, e1: Event, e2: Event, e3: Event)
    ensures Run(start, [e0, e1, e2, e3]) == Then(Then(Then(Then(Some(Trace(start, [])), e0), e1), e2), e3)
  {
    hide Run, Then;
    assert [] + [e0] == [e0] && [e0] + [e1] == [e0, e1] && [e0, e1] + [e2] == [e0, e1, e2];
    assert [e0, e1, e2] + [e3] == [e0, e1, e2, e3];
    RunThen(start, [], e0);
    RunThen(start, [e0], e1);
    RunThen(start, [e0, e1], e2);
    RunThen(start, [e0, e1, e2], e3);
  }

  /** Both updates wait: on from clock 0, and off at a clock half a turn too late. */
  lemma BothWait()
    ensures var t := Then(Some(Trace(Config(false, false, 100), [])), Queue(0, 1, 0, 0));
            var p := Pin(LoadFunc, true, 0, 0, false, false, true, false, 0, 0, 100, 0,
                         [Update(0, 1), Update(101 + HALF, 0)]);
            Then(t, Queue(101 + HALF, 0, 0, 0)) == Some(Trace(p, []))
  {
    hide TooClose, Before, At;
    AtItself(0, 0);
    NearRings(0, 0, 0);
    var t, none: seq<Setting> := Then(Some(Trace(Config(false, false, 100), [])), Queue(0, 1, 0, 0)), [];
    assert none + [] == none;
    assert [] + [Update(0, 1)] == [Update(0, 1)];
    assert t == Some(Trace(Pin(LoadFunc, true, 0, 0, false, false, true, false, 0, 0, 100, 0, [Update(0, 1)]), []));
    assert [Update(0, 1)] + [Update(101 + HALF, 0)] == [Update(0, 1), Update(101 + HALF, 0)];
  }

  /** The first is made, and the second is let pass. */
  lemma FirstMade(next: int, tolerant: bool)
    requires 0 <= next < HALF
    ensures var p := Pin(LoadFunc, true, 0, 0, false, false, true, false, 0, 0, 100, 0,
                         [Update(0, 1), Update(101 + HALF, 0)]);
            var q := Pin(LoadFunc, true, 101 + HALF, 101 + HALF, true, false, true, false, 0, 0, 100, 0,
                         [Update(101 + HALF, 0)]);
            var wake := if 101 < next then 101 + HALF else 101 - HALF;
            Step(Trace(p, []), Fire(next, tolerant)) ==
              if 101 < next || tolerant then Some(Trace(q.(waketime := wake), [Setting(0, true)])) else None
  {
    hide TooClose, Before, At;
    var p := Pin(LoadFunc, true, 0, 0, false, false, true, false, 0, 0, 100, 0, [Update(0, 1), Update(101 + HALF, 0)]);
    BeforeWithinTurn(100, 101 + HALF);
    AtItself(101 + HALF, 0);
    TooCloseExact(101 + HALF, 0, next);
    assert p.mq[1..] == [Update(101 + HALF, 0)];
    assert LoadEvent(p) == Some(Pin(LoadFunc, true, 101 + HALF, 101 + HALF, true, false, true, false, 0, 0, 100, 0,
                                    [Update(101 + HALF, 0)]));
    assert [] + [Setting(0, true)] == [Setting(0, true)];
  }

  /** The second is made. */
  lemma SecondMade(wake: int, later: int, tolerant: bool)
    requires wake <= later
    ensures var q := Pin(LoadFunc, true, wake, 101 + HALF, true, false, true, false, 0, 0, 100, 0,
                         [Update(101 + HALF, 0)]);
            var r := Step(Trace(q, [Setting(0, true)]), Fire(later, tolerant));
            r.Some? && r.value.settings == [Setting(0, true), Setting(wake, false)]
  {
    hide TooClose, Before, Low;
    assert [Setting(0, true)] + [Setting(wake, false)] == [Setting(0, true), Setting(wake, false)];
  }

  /**
   A run that breaks the promise: an output with a maximum of 100 ticks is on from clock 0, and
   the next update waits in the queue with a word that stands for a clock more than half a turn
   after the deadline.  It is let pass, and the output stays on until then, exactly if no other
   timer is due in the first 101 ticks.  Otherwise its timer is taken for one that is past.
   */
  lemma LateUpdateSlips(next: int, later: int, tolerant: bool)
    requires 0 <= next < HALF && 101 + HALF <= later
    ensures var es := [Queue(0, 1, 0, 0), Queue(101 + HALF, 0, 0, 0), Fire(next, tolerant), Fire(later, tolerant)];
            var r := Run(Config(false, false, 100), es);
            && (r.Some? && !InTime(r.value.settings, 100) <==> 101 < next)
            && (101 < next ==> r.Some? && r.value.settings == [Setting(0, true), Setting(101 + HALF, false)])
  {
    hide Run, Step, TooClose;
    RunOfFour(Config(false, false, 100), Queue(0, 1, 0, 0), Queue(101 + HALF, 0, 0, 0), Fire(next, tolerant),
              Fire(later, tolerant));
    BothWait();
    FirstMade(next, tolerant);
    SecondMade(if 101 < next then 101 + HALF else 101 - HALF, later, tolerant);
    var settings := [Setting(0, true), Setting(101 + HALF, false)];
    assert settings[1 - 1].risky && settings[1].clock > settings[1 - 1].clock + 100;
  }

  // ----- when updates take effect -----

  /** The first update in the queue takes effect at the end of the setting, and a load waits for that end. */
  ghost predicate Timed(d: Pin) {
    && (d.mq != [] ==> d.checkEnd && Low(d.endTime) == d.mq[0].waketime)
    && (d.scheduled && d.func == LoadFunc ==> d.checkEnd && Low(d.waketime) == Low(d.endTime))
    && (d.toggling ==> d.scheduled) && (d.checkEnd ==> d.scheduled)
  }

  lemma QueueTimed(d: Pin, time: Word, onDuration: Word, now: int, head: int)
    requires Timed(d) && QueueOut(d, time, onDuration, now, head).Some?
    ensures Timed(QueueOut(d, time, onDuration, now, head).value)
  {
    hide Before, TooClose, At;
    AtWord(time, now);
    WordIsLow(time);
    if d.checkEnd && Low(d.waketime) == Low(d.endTime) { SameWord(d.waketime, d.endTime, time); }
  }

  lemma WordIsLow(w: Word)
    ensures Low(w) == w
  {
  }

  lemma LoadTimed(d: Pin)
    requires Timed(d) && d.scheduled && d.func == LoadFunc && LoadEvent(d).Some?
    ensures Timed(LoadEvent(d).value)
  {
    hide Before, At;
    if |d.mq| > 1 {
      AtWord(d.mq[1].waketime, d.waketime);
      WordIsLow(d.mq[1].waketime);
    }
  }

  lemma RungTimed(d: Pin, now: int, next: int, tolerant: bool)
    requires Timed(d) && Rung(d, now, next, tolerant).Some?
    ensures Timed(Rung(d, now, next, tolerant).value)
  {
    hide TooClose, At;
    AtWord(d.waketime, now);
    WrapMultiple(At(d.waketime, now), -1);
  }

  lemma NextTimed(t: Trace, e: Event)
    requires Timed(t.pin) && Enabled(t, e) && Next(t.pin, e).Some?
    ensures Timed(Next(t.pin, e).value)
  {
    hide LoadEvent, QueueOut, Rung, Low, TooClose, Before, Timed;
    var d := t.pin;
    match e
    case Fire(next, tolerant) =>
      if d.func == ToggleFunc { ToggleTimed(d); } else { LoadTimed(d); }
      RungTimed(Called(d).value, d.waketime, next, tolerant);
    case Queue(time, on, now, head) => QueueTimed(d, time, on, now, head);
    case Set(value, now, head) => SetTimed(d, value, now, head);
    case Cycle(c) => CycleTimed(d, c);
  }

  lemma ToggleTimed(d: Pin)
    requires Timed(d) && d.scheduled && d.func == ToggleFunc
    ensures Timed(ToggleEvent(d))
  {
    hide Before, Low;
  }

  lemma SetTimed(d: Pin, value: bool, now: int, head: int)
    requires Timed(d) && UpdateOut(d, value, now, head).Some?
    ensures Timed(UpdateOut(d, value, now, head).value)
  {
    hide TooClose, Low;
  }

  lemma CycleTimed(d: Pin, c: Word)
    requires Timed(d) && SetCycle(d, c).Some?
    ensures Timed(SetCycle(d, c).value)
  {
  }

  /** An update that was made into a setting, and the clock at which. */
  datatype Load = Load(clock: int, update: Update)

  /** The load that an event makes. */
  function LoadOf(d: Pin, e: Event): seq<Load> {
    if e.Fire? && d.func == LoadFunc && d.mq != [] then [Load(d.waketime, d.mq[0])] else []
  }

  function UpdateOf(e: Event): seq<Update> {
    if e.Queue? then [Update(e.time, e.onDuration)] else []
  }

  /** The loads of a run, and the updates it queued. */
  function Loads(start: Pin, es: seq<Event>): seq<Load> {
    if es == [] then []
    else
      var before, e := es[..|es|-1], es[|es|-1];
      var r := Run(start, before);
      Loads(start, before) + if r.Some? && Enabled(r.value, e) then LoadOf(r.value.pin, e) else []
  }

  function Updates(start: Pin, es: seq<Event>): seq<Update> {
    if es == [] then []
    else
      var before, e := es[..|es|-1], es[|es|-1];
      var r := Run(start, before);
      Updates(start, before) + if r.Some? && Enabled(r.value, e) then UpdateOf(e) else []
  }

  function UpdatesOf(loads: seq<Load>): (r: seq<Update>)
    ensures |r| == |loads| && forall i :: 0 <= i < |r| ==> r[i] == loads[i].update
  {
    seq(|loads|, i requires 0 <= i < |loads| => loads[i].update)
  }

  lemma NextQueue(d: Pin, e: Event)
    requires Next(d, e).Some?
    ensures UpdatesOf(LoadOf(d, e)) + Next(d, e).value.mq == d.mq + UpdateOf(e)
  {
    hide Before, At, TooClose, Low, LoadEvent, ToggleEvent, QueueOut;
    if e.Queue? { QueuedLast(d, e.time, e.onDuration, e.now, e.head); }
    if e.Fire? {
      ToggleQueue(d);
      RungFields(Called(d).value, d.waketime, e.next, e.tolerant);
      if d.func == LoadFunc { LoadQueue(d); }
    }
  }

  lemma QueuedLast(d: Pin, time: Word, onDuration: Word, now: int, head: int)
    requires QueueOut(d, time, onDuration, now, head).Some?
    ensures QueueOut(d, time, onDuration, now, head).value.mq == d.mq + [Update(time, onDuration)]
  {
    hide Before, At, TooClose, Low;
  }

  lemma ToggleQueue(d: Pin)
    ensures ToggleEvent(d).mq == d.mq
  {
    hide Before, At, Low;
  }

  lemma LoadQueue(d: Pin)
    requires LoadEvent(d).Some?
    ensures d.mq != [] && [d.mq[0]] + LoadEvent(d).value.mq == d.mq
  {
    hide Before, At, EndOf;
  }

  /**
   Over every run the updates queued are those made into settings, in order, followed by those
   that still wait; and each was made at a clock that has the word of its update.
   */
  lemma {:induction false} UpdatesOnTime(value: bool, defaultOn: bool, maxDuration: Word, es: seq<Event>)
    requires Run(Config(value, defaultOn, maxDuration), es).Some?
    ensures var start := Config(value, defaultOn, maxDuration); var t := Run(start, es).value;
            && Timed(t.pin) && UpdatesOf(Loads(start, es)) + t.pin.mq == Updates(start, es)
            && forall l :: l in Loads(start, es) ==> Low(l.clock) == l.update.waketime
  {
    hide Next, Made, Enabled, Low, Timed, LoadOf, UpdateOf, UpdatesOf;
    var start := Config(value, defaultOn, maxDuration);
    if es == [] {
      StartTimed(value, defaultOn, maxDuration);
    } else {
      UpdatesOnTime(value, defaultOn, maxDuration, es[..|es|-1]);
      var t, e := Run(start, es[..|es|-1]).value, es[|es|-1];
      if Enabled(t, e) {
        NextTimed(t, e);
        LoadsOnTime(t, e);
        NextQueue(t.pin, e);
        MadeMore(Loads(start, es[..|es|-1]), LoadOf(t.pin, e));
        Regroup(UpdatesOf(Loads(start, es[..|es|-1])), UpdatesOf(LoadOf(t.pin, e)), Next(t.pin, e).value.mq, t.pin.mq,
                UpdateOf(e));
      }
    }
  }

  lemma StartTimed(value: bool, defaultOn: bool, maxDuration: Word)
    ensures Timed(Config(value, defaultOn, maxDuration)) && UpdatesOf([]) == []
  {
  }

  lemma LoadsOnTime(t: Trace, e: Event)
    requires Timed(t.pin) && Enabled(t, e)
    ensures forall l :: l in LoadOf(t.pin, e) ==> Low(l.clock) == l.update.waketime
  {
    hide Low;
  }

  lemma MadeMore(a: seq<Load>, b: seq<Load>)
    ensures UpdatesOf(a + b) == UpdatesOf(a) + UpdatesOf(b)
  {
  }

  lemma Regroup(a: seq<Update>, b: seq<Update>, c: seq<Update>, d: seq<Update>, e: seq<Update>)
    requires b + c == d + e
    ensures a + b + c == a + d + e
  {
    assert a + b + c == a + (b + c) && a + d + e == a + (d + e);
  }

  /** A load starts to pulse exactly when its on time is less than the cycle and its first toggle is before the end
      of the setting, if that has one, by up to half a turn. */
  lemma LoadPulsesIff(d: Pin)
    requires d.func == LoadFunc && LoadEvent(d).Some?
    ensures d.mq != []
    ensures var on := d.mq[0].onDuration; var p := LoadEvent(d).value;
            p.func == ToggleFunc <==>
              0 < on < d.cycleTime && (p.checkEnd ==> 0 < Low(p.endTime - (d.waketime + on)) <= HALF)
  {
    hide Before, EndOf, Low;
    var on, e := d.mq[0].onDuration, EndOf(d, d.mq[0], d.mq[1..]);
    BeforeExact(d.waketime + on, e.value.0);
  }

  // ----- pulses -----

  /** The durations of a pulse and the end of the pulsing, less than half a turn away. */
  ghost predicate Pulsing(d: Pin) {
    && d.toggling && 0 <= d.onDuration && 0 <= d.offDuration && d.onDuration + d.offDuration < HALF
    && (d.checkEnd ==> d.waketime < d.endTime < d.waketime + HALF)
  }

  /** A toggle that would not come before the end is replaced by the load at the end. */
  lemma ToggleExact(d: Pin)
    requires Pulsing(d)
    ensures var on := !d.on; var wake := d.waketime + if on then d.onDuration else d.offDuration;
            ToggleEvent(d) ==
              if d.checkEnd && d.endTime <= wake then d.(on := on, func := LoadFunc, waketime := d.endTime)
              else d.(on := on, waketime := wake)
  {
    hide Before;
    if d.checkEnd { BeforeWithinTurn(d.waketime + if !d.on then d.onDuration else d.offDuration, d.endTime); }
  }

  function Toggles(d: Pin, n: nat): Pin {
    if n == 0 then d else ToggleEvent(Toggles(d, n - 1))
  }

  /** A full cycle ahead of the end: off for the rest of the cycle, then on again. */
  lemma OneCycle(d: Pin)
    requires Pulsing(d) && d.on && d.func == ToggleFunc
    requires d.checkEnd ==> d.waketime + d.offDuration + d.onDuration < d.endTime
    ensures ToggleEvent(d) == d.(on := false, waketime := d.waketime + d.offDuration)
    ensures ToggleEvent(ToggleEvent(d)) == d.(waketime := d.waketime + d.offDuration + d.onDuration)
  {
    hide Before, ToggleEvent;
    ToggleExact(d);
    ToggleExact(d.(on := false, waketime := d.waketime + d.offDuration));
  }

  function Times(n: nat, ticks: int): int {
    n * ticks
  }

  lemma TimesStep(n: nat, ticks: int)
    requires n > 0 && 0 <= ticks
    ensures 0 <= Times(n - 1, ticks) && Times(n, ticks) == Times(n - 1, ticks) + ticks
  {
  }

  lemma {:induction false} Cycles(d: Pin, n: nat)
    requires Pulsing(d) && d.on && d.func == ToggleFunc
    requires d.checkEnd ==> d.waketime + Times(n, d.offDuration + d.onDuration) < d.endTime
    ensures Toggles(d, 2 * n) == d.(waketime := d.waketime + Times(n, d.offDuration + d.onDuration))
  {
    if n == 0 {
      assert d.(waketime := d.waketime) == d;
    } else {
      hide ToggleEvent, Times;
      var cycle := d.offDuration + d.onDuration;
      TimesStep(n, cycle);
      Cycles(d, n - 1);
      OneCycle(d.(waketime := d.waketime + Times(n - 1, cycle)));
      TwoMore(d, 2 * n - 2);
    }
  }

  lemma TwoMore(d: Pin, k: nat)
    ensures Toggles(d, k + 2) == ToggleEvent(ToggleEvent(Toggles(d, k)))
  {
  }

  lemma LoadedPulse(d: Pin)
    requires LoadEvent(d).Some? && d.func == LoadFunc && LoadEvent(d).value.func == ToggleFunc
    ensures d.mq != []
    ensures var on := d.mq[0].onDuration; var p := LoadEvent(d).value;
            && 0 < on < d.cycleTime && p.on && p.toggling && p.waketime == d.waketime + on
            && p.onDuration == on && p.offDuration == d.cycleTime - on
  {
    hide Before, EndOf;
  }

  /** Toggles less than half a turn away are taken in by the scheduler as they are. */
  lemma ToggleRings(d: Pin, next: int, tolerant: bool)
    requires Pulsing(d) && d.scheduled
    ensures Rung(ToggleEvent(d), d.waketime, next, tolerant) == Some(ToggleEvent(d))
  {
    hide Before, TooClose, Rings;
    NearRings(ToggleEvent(d).waketime, d.waketime, next);
  }

  /**
   A pulsing output keeps its duty cycle: n cycles after it was loaded, unless the setting
   ends before, it is on and goes off after the on time, and if the setting lasts that long
   it goes on again at the start of the next cycle.
   */
  lemma DutyCycle(d: Pin, n: nat)
    requires LoadEvent(d).Some? && d.func == LoadFunc && LoadEvent(d).value.func == ToggleFunc && d.cycleTime < HALF
    requires var p := LoadEvent(d).value;
             p.checkEnd ==> p.waketime + n * d.cycleTime < p.endTime < p.waketime + HALF
    ensures d.mq != []
    ensures var on := d.mq[0].onDuration; var p := LoadEvent(d).value; var q := Toggles(p, 2 * n);
            var start := d.waketime + n * d.cycleTime;
            && 0 < on < d.cycleTime && q.on && q.func == ToggleFunc && q.waketime == start + on
            && ((p.checkEnd ==> start + d.cycleTime < p.endTime) ==>
                  ToggleEvent(q) == q.(on := false, waketime := start + d.cycleTime))
  {
    hide LoadEvent, Toggles, ToggleEvent, Low;
    var p := LoadEvent(d).value;
    LoadedPulse(d);
    LaterStill(n, d.cycleTime);
    Cycles(p, n);
    var q := p.(waketime := p.waketime + n * d.cycleTime);
    if p.checkEnd ==> q.waketime + p.offDuration < p.endTime {
      ToggleExact(q);
    }
  }

  lemma LaterStill(n: nat, ticks: nat)
    ensures 0 <= n * ticks
  {
  }
}
