/** The folded position of a stepper. */
module StepperFold {
  import opened Word32
  import opened StepReplay
  import opened StepperMcu

  /** The step count, negated while the direction pin is low. */
  function Folded(dir: bool, net: int): int {
    if dir then POSITION_BIAS + net else -(POSITION_BIAS + net)
  }

  ghost predicate Holds(position: int, dir: bool, net: int, left: nat) {
    position == Low(Folded(dir, net) + left)
  }

  /** Direction once every queued move has been loaded. */
  function EndDir(mq: seq<Move>, dir: bool): bool {
    if mq == [] then dir else EndDir(mq[..|mq|-1], dir) != mq[|mq|-1].flip
  }

  lemma {:induction false} EndDirTail(mq: seq<Move>, dir: bool)
    requires mq != []
    ensures EndDir(mq, dir) == EndDir(mq[1..], dir != mq[0].flip)
  {
    if |mq| > 1 {
      assert mq[1..][..|mq|-2] == mq[..|mq|-1][1..];
      EndDirTail(mq[..|mq|-1], dir);
    }
  }

  /** The folded position already counts the steps of the current move that are still to come. */
  ghost predicate Counts(s: Mcu, net: int) {
    Holds(s.position, s.dirPin, net, Left(s)) && EndDir(s.mq, s.dirPin) == s.lastDir
  }

  ghost predicate Idle(s: Mcu) {
    s.count == 0 ==> s.mq == []
  }

  ghost predicate AllPositive(mq: seq<Move>) {
    forall i :: 0 <= i < |mq| ==> mq[i].count > 0
  }

  ghost predicate Sound(s: Mcu, net: int) {
    Counts(s, net) && Idle(s) && AllPositive(s.mq)
  }

  ghost predicate InRange(net: int) {
    -POSITION_BIAS < net < POSITION_BIAS
  }

  lemma LowNegates(x: int)
    ensures Low(-Low(x)) == Low(-x)
  {
    LowIsRemainder(x); LowIsRemainder(-x); LowIsRemainder(-Low(x));
    assert -(x % TWO32) == -x + (x / TWO32) * TWO32;
    WrapMultiple(-x, x / TWO32);
  }

  lemma LowAddsNegated(x: int, n: int)
    ensures Low(-Low(x) + n) == Low(-x + n)
  {
    LowNegates(x);
    LowAdds(-x, n);
    LowAdds(-Low(x), n);
  }

  /** Loading a move folds the position over and adds the steps of the move. */
  lemma Fold(position: int, dir: bool, net: int, flip: bool, count: nat)
    requires Holds(position, dir, net, 0)
    ensures Holds(Low((if flip then -position else position) + count), dir != flip, net, count)
  {
    if flip {
      LowAddsNegated(Folded(dir, net), count);
      assert Folded(!dir, net) == -Folded(dir, net);
    } else {
      LowAdds(Folded(dir, net), count);
    }
  }

  lemma Unfold(position: int, dir: bool, net: int, left: nat)
    requires Holds(position, dir, net, left) && InRange(net)
    ensures var p := Low(position - left); (if p >= 0x8000_0000 then Low(-p) else p) == POSITION_BIAS + net
  {
    var n: int := left;
    LowAdds(Folded(dir, net) + n, -n);
    LowNegates(Folded(dir, net));
    assert Low(POSITION_BIAS + net) == POSITION_BIAS + net;
  }

  /** Every step makes the rest of the move one shorter. */
  lemma Advance(position: int, dir: bool, net: int, left: nat)
    requires Holds(position, dir, net, left) && left > 0
    ensures Holds(position, dir, net + Sign(dir), left - 1)
  {
    assert Folded(dir, net) + left == Folded(dir, net + Sign(dir)) + (left - 1);
  }

  lemma Rest(net: int)
    requires InRange(net)
    ensures Holds(Low(-(POSITION_BIAS + net)), false, net, 0)
  {
  }
}

/**
 The position reported by the micro-controller is the net number of steps issued.
 */
module StepperPosition {
  import opened Word32
  import opened StepReplay
  import opened StepperMcu
  import opened StepperFold

  function ToSigned(w: int): int {
    if w >= 0x8000_0000 then w - TWO32 else w
  }

  /** What the host is told. */
  function Reported(s: Mcu): int {
    ToSigned(Low(GetPosition(s) - POSITION_BIAS))
  }

  lemma PositionIsNet(s: Mcu, net: int)
    requires Counts(s, net) && InRange(net)
    ensures GetPosition(s) == POSITION_BIAS + net
    ensures Reported(s) == net
  {
    Unfold(s.position, s.dirPin, net, Left(s));
    assert Low(net) == if net < 0 then net + TWO32 else net;
  }

  lemma LoadCounts(s: Mcu, net: int)
    requires Holds(s.position, s.dirPin, net, 0) && EndDir(s.mq, s.dirPin) == s.lastDir && AllPositive(s.mq)
    ensures Sound(LoadNext(s), net)
  {
    if s.mq != [] {
      var m := s.mq[0];
      EndDirTail(s.mq, s.dirPin);
      Fold(s.position, s.dirPin, net, m.flip, m.count);
    }
  }

  lemma QueueCounts(s: Mcu, interval: int, count: nat, add: int, net: int)
    requires Sound(s, net) && QueueMove(s, interval, count, add).Some?
    ensures Sound(QueueMove(s, interval, count, add).value, net)
  {
    var m := Move(interval, add, count, s.lastDir != s.nextDir);
    assert (s.mq + [m])[..|s.mq|] == s.mq;
    var t := s.(lastDir := s.nextDir, mq := s.mq + [m]);
    assert Counts(t, net);
    if s.count == 0 && !s.needReset { LoadCounts(t, net); }
  }

  lemma EdgeCounts(s: Mcu, net: int)
    requires Sound(s, net) && s.count > 0 && s.single
    ensures Sound(EventEdge(s), net + Sign(s.dirPin))
  {
    Advance(s.position, s.dirPin, net, s.count);
    if s.count == 1 { LoadCounts(s, net + Sign(s.dirPin)); }
  }

  lemma StepEdgeCounts(s: Mcu, minNextTime: int, net: int)
    requires Sound(s, net) && s.count > 0 && !s.single && s.count % 2 == 0
    ensures Sound(EventFull(s, minNextTime), net + Sign(s.dirPin))
  {
    Advance(s.position, s.dirPin, net, s.count / 2);
  }

  lemma PulseEndCounts(s: Mcu, minNextTime: int, net: int)
    requires Sound(s, net) && !s.single && s.count % 2 == 1
    ensures Sound(EventFull(s, minNextTime), net)
  {
    if s.count == 1 {
      var t := s.(count := 0);
      LoadCounts(t, net);
    } else {
      assert (s.count - 1) / 2 == s.count / 2;
    }
  }

  lemma StopCounts(s: Mcu, net: int)
    requires Holds(s.position, s.dirPin, net, Left(s)) && InRange(net)
    ensures Sound(Stop(s), net)
  {
    Unfold(s.position, s.dirPin, net, Left(s));
    Rest(net);
  }

  lemma NextCounts(s: Mcu, e: Event, net: int)
    requires Sound(s, net) && Next(s, e).Some? && InRange(net)
    ensures Sound(Next(s, e).value, net + Net(Issued(s, e)))
  {
    assert Issued(s, e) != [] ==> Issued(s, e)[..0] == [];
    match e
    case Queue(interval, count, add) => QueueCounts(s, interval, count, add, net);
    case SetNextStepDir(d) =>
    case Reset(clock) =>
    case Timer(t) =>
      if s.single {
        EdgeCounts(s, net);
      } else if s.count % 2 == 0 {
        StepEdgeCounts(s, t, net);
      } else {
        PulseEndCounts(s, t, net);
      }
    case StopNow => StopCounts(s, net);
  }

  /** The net position stays in range throughout the run. */
  ghost predicate StaysInRange(single: bool, es: seq<Event>)
    requires RunFrom(Config(single), es).Some?
  {
    && InRange(Net(RunFrom(Config(single), es).value.issued))
    && (es != [] ==> StaysInRange(single, es[..|es|-1]))
  }

  lemma {:induction false} RunSound(single: bool, es: seq<Event>)
    requires RunFrom(Config(single), es).Some? && StaysInRange(single, es)
    ensures var r := RunFrom(Config(single), es).value; Sound(r.state, Net(r.issued)) && InRange(Net(r.issued))
  {
    if es == [] {
      Rest(0);
    } else {
      var p := RunFrom(Config(single), es[..|es|-1]).value;
      RunSound(single, es[..|es|-1]);
      NextCounts(p.state, es[|es|-1], Net(p.issued));
      NetAppend(p.issued, Issued(p.state, es[|es|-1]));
    }
  }

  /**
   In every run, in either mode, the position told to the host is the signed number of
   steps issued.
   */
  lemma RunCounts(single: bool, es: seq<Event>)
    requires RunFrom(Config(single), es).Some? && StaysInRange(single, es)
    ensures var r := RunFrom(Config(single), es).value; Reported(r.state) == Net(r.issued)
  {
    RunSound(single, es);
    PositionIsNet(RunFrom(Config(single), es).value.state, Net(RunFrom(Config(single), es).value.issued));
  }

  /** What a stop leaves: no move, no step, the position kept, until the step clock is reset. */
  ghost predicate Frozen(s: Mcu, net: int) {
    s.needReset && s.count == 0 && s.mq == [] && !s.dirPin && !s.lastDir && Holds(s.position, false, net, 0)
  }

  lemma FrozenStays(s: Mcu, e: Event, net: int)
    requires Frozen(s, net) && InRange(net) && !e.Reset? && Next(s, e).Some?
    ensures Frozen(Next(s, e).value, net) && Issued(s, e) == []
  {
    if e.StopNow? { StopCounts(s, net); }
  }

  /**
   After a stop nothing moves until the step clock is reset: queued moves are dropped, no
   step is issued, and the position told to the host stays that of the stop.
   */
  lemma {:induction false} StopFreezes(s: Mcu, es: seq<Event>, net: int)
    requires Counts(s, net) && InRange(net)
    requires forall i :: 0 <= i < |es| ==> !es[i].Reset?
    requires RunFrom(Stop(s), es).Some?
    ensures var r := RunFrom(Stop(s), es).value;
            r.issued == [] && Frozen(r.state, net) && Reported(r.state) == Reported(s)
  {
    if es == [] {
      StopCounts(s, net);
    } else {
      StopFreezes(s, es[..|es|-1], net);
      FrozenStays(RunFrom(Stop(s), es[..|es|-1]).value.state, es[|es|-1], net);
    }
    PositionIsNet(s, net);
    PositionIsNet(RunFrom(Stop(s), es).value.state, net);
  }
}
