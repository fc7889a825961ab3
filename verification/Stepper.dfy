/**
 The stepper object of the micro-controller, operation by operation.

 The ghost fields record what the motor did: every step issued since the step clock was last
 reset, the commands taken since then, and the net number of steps of all time.  The
 invariant ties the fields to that record.
 */
module StepperObject {
  import opened Word32
  import opened Wrappers
  import opened StepReplay
  import opened TimerOrder
  import opened StepperMcu
  import opened StepperFold
  import opened StepperPosition
  import opened StepperAhead
  import opened StepperPlayback

  class Stepper {
    var waketime: int
    var nextStepTime: int
    var interval: int
    var add: int
    var count: nat
    var position: int
    var mq: seq<Move>
    var dirPin: bool
    var lastDir: bool
    var nextDir: bool
    var needReset: bool
    const single: bool
    ghost var issued: seq<Step>  // since the step clock was last reset
    ghost var cmds: seq<Cmd>     // taken since then
    ghost var from: Wheel        // the clock it was reset to and the direction then
    ghost var net: int           // forward minus backward steps since the start
    ghost var pulse: Option<int> // the earliest clock that the last event allowed for the next

    ghost function Model(): Mcu
      reads this
    {
      Mcu(waketime, nextStepTime, interval, add, count, position, mq, dirPin, lastDir, nextDir, needReset, single)
    }

    /** The position holds the net number of steps; the steps issued and those ahead are those of the
        commands taken; a stopped stepper stays where it is. */
    ghost predicate Valid()
      reads this
    {
      && Sound(Model(), net) && OnTime(Model(), pulse)
      && if needReset then Frozen(Model(), net) else Plays(Model(), issued, cmds, from)
    }

    constructor (single: bool)
      ensures Valid() && Model() == Config(single)
      ensures net == 0 && issued == [] && cmds == [] && from == Wheel(0, false)
    {
      waketime, nextStepTime, interval, add, count := 0, 0, 0, 0, 0;
      position := Low(-POSITION_BIAS);
      mq := [];
      dirPin, lastDir, nextDir, needReset := false, false, false, false;
      this.single := single;
      issued, cmds, from, net, pulse := [], [], Wheel(0, false), 0, None;
      new;
      RunSound(single, []);
      ReadyPlays(Model());
    }

    /** Makes the move at the head of the queue the current one. */
    method LoadNext() returns (done: bool)
      modifies this`waketime, this`nextStepTime, this`interval, this`add, this`count, this`position, this`mq
      modifies this`dirPin
      ensures Model() == StepperMcu.LoadNext(old(Model()))
      ensures done == (old(mq) == [])
    {
      hide Low;
      if mq == [] {
        count := 0;
        return true;
      }
      var m := mq[0];
      mq := mq[1..];
      add := m.add;
      interval := Low(m.interval + m.add);
      if single {
        waketime := Low(waketime + m.interval);
        count := m.count;
      } else {
        nextStepTime := Low(nextStepTime + m.interval);
        waketime := nextStepTime;
        count := 2 * m.count;
      }
      if m.flip {
        position := Low(-position + m.count);
        dirPin := !dirPin;
      } else {
        position := Low(position + m.count);
      }
      return false;
    }

    method CountEdge() returns (done: bool)
      requires count > 0
      modifies this`waketime, this`nextStepTime, this`interval, this`add, this`count, this`position, this`mq
      modifies this`dirPin
      ensures Model() == StepperMcu.EventEdge(old(Model()))
      ensures done == (old(count) == 1 && old(mq) == [])
    {
      if count != 1 {
        count := count - 1;
        waketime := Low(waketime + interval);
        interval := Low(interval + add);
        return false;
      }
      done := LoadNext();
    }

    /** Toggling the step pin is a step at the wake time in the direction of the direction pin.  The
        timer stops exactly when no step is left. */
    method EventEdge() returns (done: bool)
      requires Valid() && single && count > 0
      modifies this
      ensures Valid() && cmds == old(cmds) && from == old(from)
      ensures issued == old(issued) + [Step(old(waketime), old(dirPin))] && net == old(net) + Sign(old(dirPin))
      ensures Model() == StepperMcu.EventEdge(old(Model())) && (done <==> count == 0)
    {
      hide Sound, Plays, Low;
      ghost var s := Model();
      EdgeCounts(s, net);
      TimerPlays(s, 0, issued, cmds, from);
      issued, net := issued + [Step(waketime, dirPin)], net + Sign(dirPin);
      done := CountEdge();
      EdgeDone(s, old(net));
    }

    method CountFull(minNextTime: int) returns (done: bool)
      requires count > 0
      modifies this`waketime, this`nextStepTime, this`interval, this`add, this`count, this`position, this`mq
      modifies this`dirPin
      ensures Model() == StepperMcu.EventFull(old(Model()), minNextTime)
      ensures done == (old(count) == 1 && old(mq) == [])
    {
      hide Low;
      count := count - 1;
      if count % 2 == 1 {
        waketime := minNextTime;
        return false;
      }
      if count > 0 {
        nextStepTime := Low(nextStepTime + interval);
        interval := Low(interval + add);
        if IsBefore(nextStepTime, minNextTime) {
          waketime := minNextTime;
        } else {
          waketime := nextStepTime;
        }
        return false;
      }
      done := LoadNext();
      if !done && IsBefore(waketime, minNextTime) {
        waketime := minNextTime;
      }
    }

    /** Every other event is a step, planned for `nextStepTime` and made then, unless the pulse before it took
        too long, and then as soon as its end allows.  `minNextTime` is the current time plus the pulse length:
        no event follows sooner.  The timer stops exactly when no step is left. */
    method EventFull(minNextTime: int) returns (done: bool)
      requires Valid() && !single && count > 0
      modifies this
      ensures Valid() && cmds == old(cmds) && from == old(from)
      ensures old(count) % 2 == 0 ==>
        && issued == old(issued) + [Step(old(nextStepTime), old(dirPin))] && net == old(net) + Sign(old(dirPin))
        && old(waketime) == (if old(pulse).Some? && IsBefore(old(nextStepTime), old(pulse).value)
                             then old(pulse).value else old(nextStepTime))
        && waketime == minNextTime
      ensures old(count) % 2 == 1 ==> issued == old(issued) && net == old(net)
      ensures old(count) % 2 == 1 && !done ==>
        waketime == if IsBefore(nextStepTime, minNextTime) then minNextTime else nextStepTime
      ensures done <==> count == 0
      ensures (done || !IsBefore(waketime, minNextTime)) && pulse == Some(minNextTime)
      ensures Model() == StepperMcu.EventFull(old(Model()), minNextTime)
    {
      hide Sound, Plays, Low, Frozen, StepperMcu.EventFull, StepperMcu.LoadNext;
      ghost var s := Model();
      FrozenIdle(s, net);
      if s.count % 2 == 0 { StepEdgeCounts(s, minNextTime, net); } else { PulseEndCounts(s, minNextTime, net); }
      TimerPlays(s, minNextTime, issued, cmds, from);
      TimerOnTime(s, minNextTime);
      if count % 2 == 0 {
        issued, net := issued + [Step(nextStepTime, dirPin)], net + Sign(dirPin);
      } else {
        assert issued + [] == issued;
      }
      pulse := Some(minNextTime);
      done := CountFull(minNextTime);
      FullDone(s, minNextTime, old(net));
      FullWakes(s, minNextTime);
    }

    method Enqueue(interval: int, count: nat, add: int) returns (ok: bool)
      modifies this`waketime, this`nextStepTime, this`interval, this`add, this`count, this`position, this`mq
      modifies this`dirPin, this`lastDir
      ensures ok == QueueMove(old(Model()), interval, count, add).Some?
      ensures Model() == if ok then QueueMove(old(Model()), interval, count, add).value else old(Model())
    {
      if count == 0 { return false; }
      var m := Move(interval, add, count, lastDir != nextDir);
      if this.count > 0 {
        lastDir := nextDir;
        mq := mq + [m];
      } else if !needReset {
        lastDir := nextDir;
        mq := mq + [m];
        var _ := LoadNext();
      }
      return true;
    }

    /** The steps of the command come after all others.  A stopped stepper drops it; a count of zero is
        refused, which is a shutdown. */
    method QueueStep(interval: int, count: nat, add: int) returns (ok: bool)
      requires Valid()
      modifies this
      ensures Valid() && (ok <==> count > 0)
      ensures issued == old(issued) && net == old(net) && from == old(from) && needReset == old(needReset)
      ensures cmds == if ok && !needReset then old(cmds) + [Cmd.QueueStep(interval, count, add)] else old(cmds)
      ensures !ok || needReset ==> Model() == old(Model())
      ensures ok ==> QueueMove(old(Model()), interval, count, add) == Some(Model())
    {
      hide Sound, Plays, Low, Frozen;
      ghost var s := Model();
      if count > 0 {
        FrozenIdle(s, net);
        QueueCounts(s, interval, count, add, net);
        QueueOnTime(s, interval, count, add, pulse);
        pulse := PulseAfterQueue(s, pulse);
        if !needReset {
          QueuePlays(s, interval, count, add, issued, cmds, from);
          cmds := cmds + [Cmd.QueueStep(interval, count, add)];
        }
      }
      ok := Enqueue(interval, count, add);
    }

    /** The steps of later commands go in the given direction; those queued keep theirs. */
    method SetNextStepDir(dir: bool)
      requires Valid()
      modifies this
      ensures Valid() && issued == old(issued) && net == old(net) && from == old(from) && needReset == old(needReset)
      ensures cmds == if needReset then old(cmds) else old(cmds) + [SetDir(dir)]
      ensures Ahead(Model()) == old(Ahead(Model())) && Model() == old(Model()).(nextDir := dir)
    {
      hide Plays, Low, MoveRest, Queued, LastClock;
      if !needReset {
        DirPlays(Model(), dir, issued, cmds, from);
        cmds := cmds + [SetDir(dir)];
      }
      nextDir := dir;
    }

    /** Starts a new record from the given clock; refused, which is a shutdown, while a move is active. */
    method ResetStepClock(clock: int) returns (ok: bool)
      requires Valid()
      modifies this
      ensures Valid() && (ok <==> old(count) == 0) && net == old(net)
      ensures ok ==> !needReset && issued == [] && cmds == [] && from == Wheel(clock, nextDir)
      ensures ok ==> nextStepTime == waketime == clock && mq == old(mq) && nextDir == old(nextDir)
      ensures !ok ==> Model() == old(Model()) && issued == old(issued) && cmds == old(cmds) && from == old(from)
    {
      hide Plays, Low;
      if count > 0 { return false; }
      nextStepTime, waketime := clock, clock;
      needReset := false;
      issued, cmds, from := [], [], Wheel(clock, nextDir);
      ReadyPlays(Model());
      return true;
    }

    method ReadPosition() returns (p: int)
      ensures p == StepperMcu.GetPosition(Model())
    {
      p := position;
      if single {
        p := Low(p - count);
      } else {
        p := Low(p - count / 2);
      }
      if p >= 0x8000_0000 {
        p := Low(-p);
      }
    }

    /** The net number of steps issued so far, also in the middle of a move. */
    method GetPosition() returns (p: int)
      requires Valid()
      ensures InRange(net) ==> p == POSITION_BIAS + net
    {
      hide Plays, Low, OnTime, Folded;
      p := ReadPosition();
      if InRange(net) { PositionIsNet(Model(), net); }
    }

    method Halt()
      modifies this`waketime, this`nextStepTime, this`count, this`position, this`mq, this`dirPin, this`lastDir
      modifies this`nextDir, this`needReset
      ensures Model() == StepperMcu.Stop(old(Model()))
    {
      hide Low;
      nextStepTime, waketime := 0, 0;
      var p := ReadPosition();
      position := Low(-p);
      count := 0;
      lastDir, nextDir, needReset := false, false, true;
      dirPin := false;
      while mq != []
        invariant Model().(mq := []) == StepperMcu.Stop(old(Model()))
        decreases |mq|
      {
        mq := mq[1..];
      }
    }

    /** Nothing is left to do and no step is made; while the position is in range, none is lost either. */
    method Stop()
      modifies this
      ensures needReset && count == 0 && mq == [] && !dirPin && !lastDir && !nextDir
      ensures issued == old(issued) && cmds == old(cmds) && from == old(from) && net == old(net)
      ensures old(Valid()) && InRange(net) ==> Valid()
    {
      hide Plays, Low;
      if Valid() && InRange(net) { StopCounts(Model(), net); }
      Halt();
    }
  }

  lemma EdgeDone(s: Mcu, net: int)
    requires s.single && s.count > 0 && Sound(s, net)
    ensures (s.count == 1 && s.mq == []) <==> EventEdge(s).count == 0
  {
  }

  lemma FullDone(s: Mcu, minNextTime: int, net: int)
    requires !s.single && s.count > 0 && Sound(s, net)
    ensures (s.count == 1 && s.mq == []) <==> EventFull(s, minNextTime).count == 0
    ensures EventFull(s, minNextTime).count == 0 || !IsBefore(EventFull(s, minNextTime).waketime, minNextTime)
  {
  }

  lemma FullWakes(s: Mcu, minNextTime: int)
    requires !s.single && s.count > 0
    ensures var t := EventFull(s, minNextTime);
            && t.needReset == s.needReset
            && if s.count % 2 == 0 then t.waketime == minNextTime
               else t.count > 0 ==>
                 t.waketime == if IsBefore(t.nextStepTime, minNextTime) then minNextTime else t.nextStepTime
  {
    hide Low;
  }

  lemma FrozenIdle(s: Mcu, net: int)
    ensures Frozen(s, net) ==> s.count == 0 && s.mq == []
  {
  }
}

/** From the requested step times to the steps of the motor. */
module StepLink {
  import opened Word32
  import opened StepReplay
  import opened StepHistory
  import opened StepSound
  import opened StepperMcu
  import opened StepperPlayback

  /** A stepper whose step clock was reset to where the host starts. */
  function Started(single: bool, start: nat): Mcu {
    Config(single).(nextStepTime := Low(start), waketime := Low(start))
  }

  /**
   Whatever the interleaving, a stepper given the commands of the host makes one step per
   requested step, in order and in the same direction, at a clock that is never late and at
   most `maxError` ticks early.  Once idle it has made them all.
   */
  lemma StepsMeetRequests(h: Host, single: bool, es: seq<Event>)
    requires Sound(h) && Commands(es) == h.cmds && forall i :: 0 <= i < |es| ==> IsPlay(es[i])
    requires RunFrom(Started(single, h.start), es).Some?
    ensures var r := RunFrom(Started(single, h.start), es).value;
            && |r.issued| <= |h.met|
            && r.issued == OnWire(h.made[..|r.issued|], h.invert)
            && MeetSeq(h.met[..|r.issued|], h.made[..|r.issued|], h.maxError)
            && (r.state.count == 0 ==> |r.issued| == |h.met|)
  {
    var s := Started(single, h.start);
    var r := RunFrom(s, es).value;
    RunPlays(s, es);
    var all := OnWire(h.made, h.invert);
    assert Wheel(Planned(s), s.nextDir) == Origin(h);
    assert r.issued == all[..|r.issued|];
  }
}
