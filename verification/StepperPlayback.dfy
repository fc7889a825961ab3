/** The steps still to come from the state of a stepper. */
module StepperAhead {
  import opened Word32
  import opened StepReplay
  import opened StepperMcu
  import opened StepperFold

  /** The rest of the current move, from its planned clock. */
  function MoveRest(planned: int, dir: bool, interval: int, add: int, count: nat, single: bool): seq<Step> {
    if single || count % 2 == 0 then
      if count == 0 then []
      else [Step(planned, dir)] + Burst(planned, dir, interval, add, (if single then count else count / 2) - 1)
    else Burst(planned, dir, interval, add, count / 2)
  }

  function Current(s: Mcu): seq<Step> {
    MoveRest(Planned(s), s.dirPin, s.interval, s.add, s.count, s.single)
  }

  /** Clock of the last step of a list of moves that starts from the given clock. */
  function EndClock(mq: seq<Move>, clock: int): int {
    if mq == [] then clock
    else EndClock(mq[1..], LastClock(Burst(clock, true, mq[0].interval, mq[0].add, mq[0].count), clock))
  }

  function Queued(mq: seq<Move>, clock: int, dir: bool): seq<Step> {
    if mq == [] then []
    else
      var b := Burst(clock, dir != mq[0].flip, mq[0].interval, mq[0].add, mq[0].count);
      b + Queued(mq[1..], LastClock(b, clock), dir != mq[0].flip)
  }

  function Then(current: seq<Step>, planned: int, mq: seq<Move>, dir: bool): seq<Step> {
    current + Queued(mq, LastClock(current, planned), dir)
  }

  function Ahead(s: Mcu): seq<Step> {
    Then(Current(s), Planned(s), s.mq, s.dirPin)
  }

  function AheadClock(s: Mcu): int {
    EndClock(s.mq, LastClock(Current(s), Planned(s)))
  }

  /** The steps issued and those ahead are the steps of the commands, in order. */
  ghost predicate Told(issued: seq<Step>, ahead: seq<Step>, next: Wheel, cmds: seq<Cmd>, w: Wheel) {
    issued + ahead == Replay(cmds, w) && After(cmds, w) == next
  }

  ghost predicate Kept(s: Mcu) {
    EndDir(s.mq, s.dirPin) == s.lastDir && Idle(s) && AllPositive(s.mq) && !s.needReset
  }

  ghost predicate Plays(s: Mcu, issued: seq<Step>, cmds: seq<Cmd>, w: Wheel) {
    Kept(s) && Told(issued, Ahead(s), Wheel(AheadClock(s), s.nextDir), cmds, w)
  }

  lemma ToldMore(issued: seq<Step>, ahead: seq<Step>, next: Wheel, c: Cmd, cmds: seq<Cmd>, w: Wheel)
    requires Told(issued, ahead, next, cmds, w) && c.QueueStep?
    ensures var b := Burst(next.clock, next.dir, c.interval, c.add, c.count);
            Told(issued, ahead + b, next.(clock := LastClock(b, next.clock)), cmds + [c], w)
  {
    ReplaySnoc(cmds, c, w);
    Associates(issued, ahead, Burst(next.clock, next.dir, c.interval, c.add, c.count));
  }

  lemma ToldIssued(issued: seq<Step>, step: seq<Step>, ahead: seq<Step>, next: Wheel, cmds: seq<Cmd>, w: Wheel)
    requires Told(issued, step + ahead, next, cmds, w)
    ensures Told(issued + step, ahead, next, cmds, w)
  {
    Associates(issued, step, ahead);
  }

  lemma LastClockOfBurst(clock: int, dir: bool, interval: int, add: int, n: nat)
    ensures LastClock(Burst(clock, dir, interval, add, n), clock) ==
      LastClock(Burst(clock, true, interval, add, n), clock)
  {
  }

  lemma {:induction false} EndClockSnoc(mq: seq<Move>, m: Move, clock: int)
    ensures EndClock(mq + [m], clock)
         == LastClock(Burst(EndClock(mq, clock), true, m.interval, m.add, m.count), EndClock(mq, clock))
  {
    if mq == [] {
      assert (mq + [m])[1..] == [];
    } else {
      assert (mq + [m])[1..] == mq[1..] + [m];
      EndClockSnoc(mq[1..], m, LastClock(Burst(clock, true, mq[0].interval, mq[0].add, mq[0].count), clock));
    }
  }

  lemma QueuedCons(mq: seq<Move>, clock: int, dir: bool)
    requires mq != []
    ensures var b := Burst(clock, dir != mq[0].flip, mq[0].interval, mq[0].add, mq[0].count);
            Queued(mq, clock, dir) == b + Queued(mq[1..], LastClock(b, clock), dir != mq[0].flip)
  {
  }

  lemma {:induction false} QueuedSnoc(mq: seq<Move>, m: Move, clock: int, dir: bool)
    ensures Queued(mq + [m], clock, dir)
         == Queued(mq, clock, dir) + Burst(EndClock(mq, clock), EndDir(mq, dir) != m.flip, m.interval, m.add, m.count)
  {
    var last := Burst(EndClock(mq, clock), EndDir(mq, dir) != m.flip, m.interval, m.add, m.count);
    QueuedCons(mq + [m], clock, dir);
    if mq == [] {
      assert (mq + [m])[1..] == [];
    } else {
      var h := mq[0];
      var d := dir != h.flip;
      var b := Burst(clock, d, h.interval, h.add, h.count);
      var c := LastClock(b, clock);
      LastClockOfBurst(clock, d, h.interval, h.add, h.count);
      EndDirTail(mq, dir);
      QueuedSnoc(mq[1..], m, c, d);
      assert (mq + [m])[1..] == mq[1..] + [m];
      Associates(b, Queued(mq[1..], c, d), last);
    }
  }

  lemma Associates(a: seq<Step>, b: seq<Step>, c: seq<Step>)
    ensures a + (b + c) == a + b + c
  {
  }

  // ----- a burst, one step at a time -----

  /** The gap is a 32-bit word: adding to it may wrap without changing any step clock. */
  lemma {:induction false} GapWraps(clock: int, gap: int, add: int, k: nat)
    ensures Low(clock + Travel(Low(gap), add, k)) == Low(clock + Travel(gap, add, k))
    decreases k
  {
    if k > 0 {
      GapWraps(clock + Low(gap), Low(gap) + add, add, k - 1);
      LowAdds(gap, add);
      GapWraps(clock + Low(gap), gap + add, add, k - 1);
      LowAdds(gap, clock + Travel(gap + add, add, k - 1));
    }
  }

  lemma BurstStep(clock: int, gap: int, add: int, k: nat)
    ensures Low(Low(clock + gap) + Travel(Low(gap + add), add, k)) == Low(clock + Travel(gap, add, k + 1))
  {
    GapWraps(Low(clock + gap), gap + add, add, k);
    LowAdds(clock + gap, Travel(gap + add, add, k));
  }

  /** The first step of a burst, then the burst from there with the next gap. */
  lemma BurstUnrolls(clock: int, dir: bool, gap: int, add: int, n: nat)
    requires n > 0
    ensures Burst(clock, dir, gap, add, n)
         == [Step(Low(clock + gap), dir)] + Burst(Low(clock + gap), dir, Low(gap + add), add, n - 1)
  {
    hide Low;
    var l, t := Burst(clock, dir, gap, add, n), Burst(Low(clock + gap), dir, Low(gap + add), add, n - 1);
    assert l[0] == Step(Low(clock + Travel(gap, add, 1)), dir);
    assert Travel(gap, add, 1) == gap + Travel(gap + add, add, 0);
    forall k | 0 <= k < n - 1 ensures l[k + 1] == t[k] {
      BurstStep(clock, gap, add, k + 1);
    }
  }
}

/**
 Whatever way commands and timer events interleave, the stepper makes exactly the steps
 that its commands stand for.
 */
module StepperPlayback {
  import opened Word32
  import opened Wrappers
  import opened StepReplay
  import opened StepperMcu
  import opened StepperFold
  import opened StepperAhead
  import opened TimerOrder

  lemma LoadAhead(s: Mcu)
    requires s.mq != [] && AllPositive(s.mq)
    ensures Ahead(LoadNext(s)) == Queued(s.mq, Planned(s), s.dirPin)
    ensures AheadClock(LoadNext(s)) == EndClock(s.mq, Planned(s))
  {
    var m, t := s.mq[0], LoadNext(s);
    BurstUnrolls(Planned(s), t.dirPin, m.interval, m.add, m.count);
    assert Left(t) == m.count;
    assert Current(t) == Burst(Planned(s), t.dirPin, m.interval, m.add, m.count);
    LastClockOfBurst(Planned(s), t.dirPin, m.interval, m.add, m.count);
  }

  /** A queued move comes after everything ahead. */
  lemma PushAhead(s: Mcu, m: Move, t: Mcu)
    requires m.flip == (s.lastDir != s.nextDir) && t == s.(lastDir := s.nextDir, mq := s.mq + [m])
    requires EndDir(s.mq, s.dirPin) == s.lastDir
    ensures Ahead(t) == Ahead(s) + Burst(AheadClock(s), s.nextDir, m.interval, m.add, m.count)
    ensures AheadClock(t) == LastClock(Burst(AheadClock(s), s.nextDir, m.interval, m.add, m.count), AheadClock(s))
    ensures EndDir(t.mq, t.dirPin) == t.lastDir
  {
    var c := LastClock(Current(s), Planned(s));
    assert Current(t) == Current(s);
    assert (s.mq + [m])[..|s.mq|] == s.mq;
    QueuedSnoc(s.mq, m, c, s.dirPin);
    EndClockSnoc(s.mq, m, c);
    LastClockOfBurst(AheadClock(s), s.nextDir, m.interval, m.add, m.count);
    Associates(Current(s), Queued(s.mq, c, s.dirPin), Burst(AheadClock(s), s.nextDir, m.interval, m.add, m.count));
  }

  lemma LoadKeepsAhead(s: Mcu)
    requires Current(s) == [] && s.mq != [] && AllPositive(s.mq)
    ensures Ahead(LoadNext(s)) == Ahead(s) && AheadClock(LoadNext(s)) == AheadClock(s)
  {
    LoadAhead(s);
    assert [] + Queued(s.mq, Planned(s), s.dirPin) == Queued(s.mq, Planned(s), s.dirPin);
  }

  lemma LoadKeepsDirs(s: Mcu)
    requires EndDir(s.mq, s.dirPin) == s.lastDir && AllPositive(s.mq)
    ensures var t := LoadNext(s);
            EndDir(t.mq, t.dirPin) == t.lastDir && Idle(t) && AllPositive(t.mq) && t.needReset == s.needReset
  {
    hide Low;
    if s.mq != [] { EndDirTail(s.mq, s.dirPin); }
  }

  lemma QueueAhead(s: Mcu, interval: int, count: nat, add: int)
    requires Kept(s) && count > 0
    ensures var b := Burst(AheadClock(s), s.nextDir, interval, add, count);
            var t := QueueMove(s, interval, count, add).value;
            Ahead(t) == Ahead(s) + b && AheadClock(t) == LastClock(b, AheadClock(s))
  {
    var m := Move(interval, add, count, s.lastDir != s.nextDir);
    var t := s.(lastDir := s.nextDir, mq := s.mq + [m]);
    PushAhead(s, m, t);
    if s.count == 0 { LoadKeepsAhead(t); }
  }

  lemma QueueKept(s: Mcu, interval: int, count: nat, add: int)
    requires Kept(s) && count > 0
    ensures Kept(QueueMove(s, interval, count, add).value)
  {
    hide Low, LoadNext;
    var m := Move(interval, add, count, s.lastDir != s.nextDir);
    var t := s.(lastDir := s.nextDir, mq := s.mq + [m]);
    assert (s.mq + [m])[..|s.mq|] == s.mq;
    if s.count == 0 { LoadKeepsDirs(t); }
  }

  lemma QueuePlays(s: Mcu, interval: int, count: nat, add: int, issued: seq<Step>, cmds: seq<Cmd>, w: Wheel)
    requires Plays(s, issued, cmds, w) && count > 0
    ensures Plays(QueueMove(s, interval, count, add).value, issued, cmds + [QueueStep(interval, count, add)], w)
  {
    hide Burst, Queued, EndClock, Low, MoveRest, LastClock, EndDir;
    QueueAhead(s, interval, count, add);
    QueueKept(s, interval, count, add);
    ToldMore(issued, Ahead(s), Wheel(AheadClock(s), s.nextDir), QueueStep(interval, count, add), cmds, w);
  }

  // ----- one timer event -----

  lemma ShorterAhead(s: Mcu, t: Mcu, step: seq<Step>)
    requires Current(s) == step + Current(t) && s.mq == t.mq && s.dirPin == t.dirPin
    requires LastClock(Current(s), Planned(s)) == LastClock(Current(t), Planned(t))
    ensures step + Ahead(t) == Ahead(s) && AheadClock(t) == AheadClock(s)
  {
    Associates(step, Current(t), Queued(s.mq, LastClock(Current(s), Planned(s)), s.dirPin));
  }

  lemma EdgeAhead(s: Mcu)
    requires s.single && s.count > 0 && AllPositive(s.mq)
    ensures [Step(Planned(s), s.dirPin)] + Ahead(EventEdge(s)) == Ahead(s) && AheadClock(EventEdge(s)) == AheadClock(s)
  {
    hide Queued, EndClock, Low, Travel;
    var step := [Step(Planned(s), s.dirPin)];
    if s.count > 1 {
      BurstUnrolls(Planned(s), s.dirPin, s.interval, s.add, s.count - 1);
      ShorterAhead(s, EventEdge(s), step);
    } else {
      assert Current(s) == step;
      var t := s.(count := 0);
      ShorterAhead(s, t, step);
      if s.mq != [] {
        LoadKeepsAhead(t);
        assert LoadNext(s) == LoadNext(t);
      }
    }
  }

  lemma StepEdgeAhead(s: Mcu, minNextTime: int)
    requires !s.single && s.count > 0 && s.count % 2 == 0
    ensures var t := EventFull(s, minNextTime);
            [Step(Planned(s), s.dirPin)] + Ahead(t) == Ahead(s) && AheadClock(t) == AheadClock(s)
  {
    ShorterAhead(s, EventFull(s, minNextTime), [Step(Planned(s), s.dirPin)]);
  }

  /** The clock the timer is set to does not matter in the two-event mode. */
  lemma WaketimeAhead(s: Mcu, waketime: int)
    requires !s.single
    ensures Ahead(s.(waketime := waketime)) == Ahead(s) && AheadClock(s.(waketime := waketime)) == AheadClock(s)
  {
  }

  lemma PulseEndAhead(s: Mcu, minNextTime: int)
    requires !s.single && s.count > 1 && s.count % 2 == 1
    ensures var t := EventFull(s, minNextTime); Ahead(t) == Ahead(s) && AheadClock(t) == AheadClock(s)
  {
    hide Burst, Queued, EndClock, Low, Travel;
    var next, t := Low(Planned(s) + s.interval), EventFull(s, minNextTime);
    var n := s.count / 2;
    BurstUnrolls(Planned(s), s.dirPin, s.interval, s.add, n);
    assert t.count == 2 * n && Left(t) == n && Planned(t) == next;
    assert Current(t) == [Step(next, s.dirPin)] + Burst(next, s.dirPin, Low(s.interval + s.add), s.add, n - 1);
    assert Current(s) == Burst(Planned(s), s.dirPin, s.interval, s.add, n);
  }

  lemma LastPulseAhead(s: Mcu, minNextTime: int)
    requires !s.single && s.count == 1 && AllPositive(s.mq)
    ensures var t := EventFull(s, minNextTime); Ahead(t) == Ahead(s) && AheadClock(t) == AheadClock(s)
  {
    var u := s.(count := 0);
    assert Current(s) == [] && Current(u) == [];
    assert Ahead(s) == Ahead(u) && AheadClock(s) == AheadClock(u);
    if s.mq != [] {
      LoadKeepsAhead(u);
      WaketimeAhead(LoadNext(u), NotBefore(LoadNext(u).waketime, minNextTime));
    }
  }

  lemma TimerAhead(s: Mcu, minNextTime: int)
    requires s.count > 0 && AllPositive(s.mq)
    ensures var t := Next(s, Timer(minNextTime)).value;
            Ahead(s) == Issued(s, Timer(minNextTime)) + Ahead(t) && AheadClock(t) == AheadClock(s)
  {
    if s.single {
      EdgeAhead(s);
    } else if s.count % 2 == 0 {
      StepEdgeAhead(s, minNextTime);
    } else {
      if s.count > 1 { PulseEndAhead(s, minNextTime); } else { LastPulseAhead(s, minNextTime); }
      assert Ahead(s) == [] + Ahead(s);
    }
  }

  lemma EdgeKept(s: Mcu)
    requires s.single && s.count > 0 && Kept(s)
    ensures Kept(EventEdge(s)) && EventEdge(s).nextDir == s.nextDir
  {
    LoadKeepsDirs(s);
  }

  lemma FullKept(s: Mcu, minNextTime: int)
    requires !s.single && s.count > 0 && Kept(s)
    ensures Kept(EventFull(s, minNextTime)) && EventFull(s, minNextTime).nextDir == s.nextDir
  {
    if s.count == 1 { LoadKeepsDirs(s.(count := 0)); }
  }

  lemma TimerPlays(s: Mcu, minNextTime: int, issued: seq<Step>, cmds: seq<Cmd>, w: Wheel)
    requires Plays(s, issued, cmds, w) && s.count > 0
    ensures Plays(Next(s, Timer(minNextTime)).value, issued + Issued(s, Timer(minNextTime)), cmds, w)
  {
    var t := Next(s, Timer(minNextTime)).value;
    TimerAhead(s, minNextTime);
    if s.single { EdgeKept(s); } else { FullKept(s, minNextTime); }
    ToldIssued(issued, Issued(s, Timer(minNextTime)), Ahead(t), Wheel(AheadClock(s), s.nextDir), cmds, w);
  }

  lemma DirPlays(s: Mcu, d: bool, issued: seq<Step>, cmds: seq<Cmd>, w: Wheel)
    requires Plays(s, issued, cmds, w)
    ensures Plays(s.(nextDir := d), issued, cmds + [SetDir(d)], w)
  {
    hide Burst, Queued, EndClock, Low, MoveRest, LastClock, EndDir;
    ReplaySnoc(cmds, SetDir(d), w);
    assert Ahead(s.(nextDir := d)) == Ahead(s) && AheadClock(s.(nextDir := d)) == AheadClock(s);
  }

  // ----- when the steps are made -----

  /**
   What the timer of the two-event mode is set to.  `pulse` is the earliest clock that the last
   timer event allowed for the next, if the move was not loaded while the stepper was idle.
   During a pulse the timer is set to its end.  For a step it is set to the clock planned for
   the step, unless that is before the earliest clock, and then to the earliest clock.
   */
  predicate OnTime(s: Mcu, pulse: Option<int>) {
    !s.single && s.count > 0 ==>
      if s.count % 2 == 1 then pulse == Some(s.waketime)
      else if pulse.Some? && IsBefore(s.nextStepTime, pulse.value) then s.waketime == pulse.value
      else s.waketime == s.nextStepTime
  }

  lemma TimerOnTime(s: Mcu, minNextTime: int)
    requires s.count > 0
    ensures OnTime(Next(s, Timer(minNextTime)).value, Some(minNextTime))
  {
    hide Low;
  }

  /** The earliest clock after a command: none if the command is loaded at once. */
  function PulseAfterQueue(s: Mcu, pulse: Option<int>): Option<int> {
    if s.count == 0 then None else pulse
  }

  lemma QueueOnTime(s: Mcu, interval: int, count: nat, add: int, pulse: Option<int>)
    requires OnTime(s, pulse) && count > 0
    ensures OnTime(QueueMove(s, interval, count, add).value, PulseAfterQueue(s, pulse))
  {
    hide Low;
  }

  /** The earliest clock that the last timer event of a run allowed for the next. */
  function Pulse(s: Mcu, es: seq<Event>): Option<int> {
    if es == [] then None
    else
      var before := es[..|es|-1];
      match es[|es|-1]
      case Timer(t) => Some(t)
      case Queue(_, _, _) =>
        if RunFrom(s, before).Some? then PulseAfterQueue(RunFrom(s, before).value.state, Pulse(s, before)) else None
      case _ => Pulse(s, before)
  }

  /** In every run, in the two-event mode, a step is made at the clock planned for it or, exactly when that is
      before the earliest clock allowed by the pulse before, at that earliest clock. */
  lemma {:induction false} RunOnTime(s: Mcu, es: seq<Event>)
    requires OnTime(s, None) && RunFrom(s, es).Some?
    ensures OnTime(RunFrom(s, es).value.state, Pulse(s, es))
  {
    if es != [] {
      RunOnTime(s, es[..|es|-1]);
      var p := RunFrom(s, es[..|es|-1]).value.state;
      match es[|es|-1]
      case Queue(interval, count, add) => QueueOnTime(p, interval, count, add, Pulse(s, es[..|es|-1]));
      case Timer(t) => TimerOnTime(p, t);
      case _ =>
    }
  }

  // ----- runs -----

  predicate IsPlay(e: Event) { e.Queue? || e.SetNextStepDir? || e.Timer? }

  /** The commands among the events. */
  function Commands(es: seq<Event>): seq<Cmd> {
    if es == [] then []
    else
      var before := Commands(es[..|es|-1]);
      match es[|es|-1]
      case Queue(interval, count, add) => before + [QueueStep(interval, count, add)]
      case SetNextStepDir(d) => before + [SetDir(d)]
      case _ => before
  }

  /** Nothing left to do, and the step clock is set. */
  ghost predicate Ready(s: Mcu) {
    s.count == 0 && s.mq == [] && !s.needReset && s.lastDir == s.dirPin
  }

  lemma ReadyPlays(s: Mcu)
    requires Ready(s)
    ensures Plays(s, [], [], Wheel(Planned(s), s.nextDir))
  {
    assert Current(s) == [];
  }

  lemma {:induction false} PlayRun(s: Mcu, es: seq<Event>)
    requires Ready(s) && RunFrom(s, es).Some? && forall i :: 0 <= i < |es| ==> IsPlay(es[i])
    ensures var r := RunFrom(s, es).value; Plays(r.state, r.issued, Commands(es), Wheel(Planned(s), s.nextDir))
  {
    var w := Wheel(Planned(s), s.nextDir);
    if es == [] {
      ReadyPlays(s);
    } else {
      PlayRun(s, es[..|es|-1]);
      var p := RunFrom(s, es[..|es|-1]).value;
      var before := Commands(es[..|es|-1]);
      assert p.issued + [] == p.issued;
      match es[|es|-1]
      case Queue(interval, count, add) => QueuePlays(p.state, interval, count, add, p.issued, before, w);
      case SetNextStepDir(d) => DirPlays(p.state, d, p.issued, before, w);
      case Timer(t) => TimerPlays(p.state, t, p.issued, before, w);
    }
  }

  /**
   In every interleaving of commands and timer events, the steps issued so far are the
   first of those the commands so far stand for; once idle, all of them were issued.
   */
  lemma RunPlays(s: Mcu, es: seq<Event>)
    requires Ready(s) && RunFrom(s, es).Some? && forall i :: 0 <= i < |es| ==> IsPlay(es[i])
    ensures var r := RunFrom(s, es).value; var all := Replay(Commands(es), Wheel(Planned(s), s.nextDir));
            && r.issued + Ahead(r.state) == all
            && r.issued <= all
            && (r.state.count == 0 ==> r.issued == all)
  {
    PlayRun(s, es);
    var r := RunFrom(s, es).value;
    assert r.state.count == 0 ==> Current(r.state) == [] && Ahead(r.state) == [];
  }
}
