/**
 The stepper on the micro-controller: a queue of moves played by a timer.

 All clocks and the position are 32-bit words.  The position is kept folded: while the
 direction pin is low it is stored negated, so that every step of a move adds to it.  The
 direction of a step is the level of the direction pin when the step pin is toggled.
 */
module StepperMcu {
  import opened Word32
  import opened Wrappers
  import opened StepReplay
  import opened TimerOrder

  const POSITION_BIAS := 0x4000_0000

  datatype Move = Move(interval: int, add: int, count: nat, flip: bool)

  /** `single` is the mode with one timer event per step; otherwise a second event ends the pulse. */
  datatype Mcu = Mcu(
    waketime: int, nextStepTime: int, interval: int, add: int, count: nat, position: int,
    mq: seq<Move>, dirPin: bool, lastDir: bool, nextDir: bool, needReset: bool, single: bool)

  function Config(single: bool): Mcu {
    Mcu(0, 0, 0, 0, 0, Low(-POSITION_BIAS), [], false, false, false, false, single)
  }

  // ----- the operations -----

  function LoadNext(s: Mcu): Mcu {
    if s.mq == [] then s.(count := 0)
    else
      var m := s.mq[0];
      var t := s.(mq := s.mq[1..], add := m.add, interval := Low(m.interval + m.add),
                  position := Low((if m.flip then -s.position else s.position) + m.count),
                  dirPin := s.dirPin != m.flip);
      if s.single then t.(waketime := Low(s.waketime + m.interval), count := m.count)
      else
        var next := Low(s.nextStepTime + m.interval);
        t.(nextStepTime := next, waketime := next, count := 2 * m.count)
  }

  /** One step per event. */
  function EventEdge(s: Mcu): Mcu
    requires s.count > 0
  {
    if s.count > 1 then
      s.(count := s.count - 1, waketime := Low(s.waketime + s.interval), interval := Low(s.interval + s.add))
    else LoadNext(s)
  }

  /** An event that would come too early is pushed back. */
  function NotBefore(clock: int, minNextTime: int): int {
    if IsBefore(clock, minNextTime) then minNextTime else clock
  }

  /** A step edge when the count is even, the end of the pulse when it is odd. */
  function EventFull(s: Mcu, minNextTime: int): Mcu
    requires s.count > 0
  {
    var t := s.(count := s.count - 1);
    if t.count % 2 == 1 then t.(waketime := minNextTime)
    else if t.count > 0 then
      var next := Low(s.nextStepTime + s.interval);
      t.(nextStepTime := next, interval := Low(s.interval + s.add), waketime := NotBefore(next, minNextTime))
    else
      var u := LoadNext(t);
      if t.mq == [] then u else u.(waketime := NotBefore(u.waketime, minNextTime))
  }

  /** None is a shutdown. */
  function QueueMove(s: Mcu, interval: int, count: nat, add: int): Option<Mcu> {
    if count == 0 then None
    else
      var m := Move(interval, add, count, s.lastDir != s.nextDir);
      if s.count > 0 then Some(s.(lastDir := s.nextDir, mq := s.mq + [m]))
      else if s.needReset then Some(s)
      else Some(LoadNext(s.(lastDir := s.nextDir, mq := s.mq + [m])))
  }

  function ResetStepClock(s: Mcu, clock: int): Option<Mcu> {
    if s.count > 0 then None else Some(s.(nextStepTime := clock, waketime := clock, needReset := false))
  }

  /** Steps of the current move that are still to come. */
  function Left(s: Mcu): nat {
    if s.single then s.count else s.count / 2
  }

  function GetPosition(s: Mcu): int {
    var p := Low(s.position - Left(s));
    if p >= 0x8000_0000 then Low(-p) else p
  }

  function Stop(s: Mcu): Mcu {
    s.(nextStepTime := 0, waketime := 0, position := Low(-GetPosition(s)), count := 0, mq := [],
       dirPin := false, lastDir := false, nextDir := false, needReset := true)
  }

  // ----- events -----

  datatype Event =
    | Queue(interval: int, count: nat, add: int)
    | SetNextStepDir(dir: bool)
    | Reset(clock: int)
    | Timer(minNextTime: int)
    | StopNow

  /** The clock the next step is planned for; the timer of the two-event mode may fire later. */
  function Planned(s: Mcu): int {
    if s.single then s.waketime else s.nextStepTime
  }

  /** The step issued by an event, if any: the level of the direction pin says which way. */
  function Issued(s: Mcu, e: Event): seq<Step> {
    if e.Timer? && s.count > 0 && (s.single || s.count % 2 == 0) then [Step(Planned(s), s.dirPin)] else []
  }

  /** None is a shutdown, or a timer event without a move, which the scheduler never delivers. */
  function Next(s: Mcu, e: Event): Option<Mcu> {
    match e
    case Queue(interval, count, add) => QueueMove(s, interval, count, add)
    case SetNextStepDir(d) => Some(s.(nextDir := d))
    case Reset(clock) => ResetStepClock(s, clock)
    case Timer(t) => if s.count == 0 then None else Some(if s.single then EventEdge(s) else EventFull(s, t))
    case StopNow => Some(Stop(s))
  }

  datatype Trace = Trace(state: Mcu, issued: seq<Step>)

  function RunFrom(s: Mcu, es: seq<Event>): Option<Trace> {
    if es == [] then Some(Trace(s, []))
    else
      var r := RunFrom(s, es[..|es|-1]);
      if r.None? then None
      else
        var n := Next(r.value.state, es[|es|-1]);
        if n.None? then None else Some(Trace(n.value, r.value.issued + Issued(r.value.state, es[|es|-1])))
  }
}
