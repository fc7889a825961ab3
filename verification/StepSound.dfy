/** The invariant of the host side of a stepper, and that every change of state keeps it. */
module StepSound {
  import opened StepLine
  import opened StepCheck
  import opened StepReplay
  import opened StepHistory

  const MAX_CLOCK64 := 0xffff_ffff_ffff_ffff

  ghost predicate AllBefore(steps: seq<Step>, clock: int) {
    forall i :: 0 <= i < |steps| ==> steps[i].clock < clock
  }

  ghost predicate Sound(s: Host) {
    && Replays(s) && Matches(s) && Pending(s)
    && -1 <= s.sdir <= 1 && s.position == Net(s.made)
    && s.start < MAX_CLOCK64 && AllBefore(s.met, MAX_CLOCK64) && AllBefore(s.due, MAX_CLOCK64)
  }

  lemma NetGrows(made: seq<Step>, last: int, dir: bool, m: StepMove)
    requires 0 <= m.count
    ensures Net(made + Covered(last, dir, m)) == Net(made) + Signed(dir, m.count)
  {
    NetAppend(made, Covered(last, dir, m));
    NetUniform(Covered(last, dir, m), dir);
  }

  lemma SoundShape(s: Host)
    requires Sound(s)
    ensures Pending(s) && |s.met| == |s.made|
  {
  }

  lemma SendableCount(s: Host, m: StepMove)
    requires Sendable(s, m)
    ensures 1 <= m.count <= |s.queue| == |s.due|
  {
  }

  lemma SendingKeepsRequests(s: Host, m: StepMove, bound: int)
    requires Sendable(s, m) && AllBefore(s.met, bound) && AllBefore(s.due, bound)
    ensures var t := Sending(s, m);
            && AllBefore(t.met, bound) && AllBefore(t.due, bound)
            && t.met + t.due == s.met + s.due && |t.queue| < |s.queue|
            && Net(t.made) == Net(s.made) + Signed(s.sdir == 1, m.count)
  {
    hide Sendable, Net, Covered, Travel;
    SendableCount(s, m);
    NetGrows(s.made, s.last, s.sdir == 1, m);
    assert s.due[..m.count] + s.due[m.count..] == s.due;
  }

  lemma SendingKeeps(s: Host, m: StepMove)
    requires Replays(s) && Matches(s) && Pending(s) && Sendable(s, m)
    ensures var t := Sending(s, m); Replays(t) && Matches(t) && Pending(t) && s.last < t.last
  {
    SendingReplays(s, m);
    SendingMatches(s, m);
    SendingPending(s, m);
  }

  lemma SendingSound(s: Host, m: StepMove)
    requires Sound(s) && Sendable(s, m)
    ensures Sound(Sending(s, m))
    ensures var t := Sending(s, m); s.last < t.last && |t.queue| < |s.queue| && t.met + t.due == s.met + s.due
  {
    SendingKeeps(s, m);
    SendingKeepsRequests(s, m, MAX_CLOCK64);
  }

  lemma FarSound(s: Host, clock: int)
    requires Sound(s) && s.queue == [] && s.sdir >= 0 && clock < MAX_CLOCK64
    ensures Sound(SendingFar(s, clock)) && s.due == []
  {
    SendingFarSound(s, clock);
    NetAppend(s.made, [Step(clock, s.sdir == 1)]);
    NetUniform([Step(clock, s.sdir == 1)], s.sdir == 1);
  }

  lemma TurnSound(s: Host, dir: bool)
    requires Sound(s) && s.queue == []
    ensures Sound(Turning(s, dir))
  {
    TurningSound(s, dir);
  }

  lemma RequestSound(s: Host, clock: int)
    requires Sound(s) && s.sdir >= 0 && s.last < clock < s.last + CLOCK_DIFF_MAX && clock < MAX_CLOCK64
    requires s.due != [] ==> s.due[|s.due|-1].clock < clock
    ensures Sound(Queueing(s, clock))
  {
    QueueingSound(s, clock);
  }

  /** The last step sent is not beyond the last one requested. */
  lemma LastNotBeyond(s: Host)
    requires Sound(s)
    ensures s.last <= LastClock(s.met + s.due, s.start) < MAX_CLOCK64
  {
    if s.due != [] {
      Ordered(Relative(s.queue, s.last), |s.due| - 1, |s.due| - 1);
    } else if s.made != [] {
      assert Meets(s.met[|s.met|-1], s.made[|s.made|-1], s.maxError);
      assert s.met + s.due == s.met;
    }
  }

  // ----- the pending step -----

  /** Everything handed in is requested, or pending, or has been rolled back in pairs. */
  ghost predicate Steady(requested: seq<Step>, start: nat, pending: nat, dir: bool, submitted: int) {
    && (pending != 0 ==> LastClock(requested, start) < pending < MAX_CLOCK64)
    && submitted == Net(requested) + (if pending != 0 then Sign(dir) else 0)
  }

  lemma SteadyCommit(requested: seq<Step>, start: nat, pending: nat, dir: bool, submitted: int)
    requires Steady(requested, start, pending, dir, submitted) && pending != 0
    ensures LastClock(requested, start) < pending < MAX_CLOCK64
    ensures forall d :: Steady(requested + [Step(pending, dir)], start, 0, d, submitted)
  {
    assert (requested + [Step(pending, dir)])[..|requested|] == requested;
  }

  lemma SteadyRollback(requested: seq<Step>, start: nat, pending: nat, dir: bool, submitted: int)
    requires Steady(requested, start, pending, dir, submitted) && pending != 0
    ensures Steady(requested, start, 0, !dir, submitted + Sign(!dir))
  {
  }

  lemma SteadyHold(requested: seq<Step>, start: nat, clock: nat, past: bool, dir: bool, submitted: int)
    requires Steady(requested, start, 0, past, submitted) && LastClock(requested, start) < clock < MAX_CLOCK64
    requires clock > 0
    ensures Steady(requested, start, clock, dir, submitted + Sign(dir))
  {
  }
}
