/**
 The host side of a stepper as a value: what was requested, what was sent, what is queued.

 `Sound` relates the three.  Replaying the commands sent makes one step per request met, in
 order and in the same direction, never late and at most `maxError` ticks early; the requests
 not met yet are the queue.  The lemmas show that every way of changing the state keeps it.
 */
module StepHistory {
  import opened Word32
  import opened StepLine
  import opened StepCheck
  import opened StepReplay

  /** A step made in place of a requested one: same direction, not late, not too early. */
  ghost predicate Meets(requested: Step, made: Step, maxError: nat) {
    requested.dir == made.dir && requested.clock - maxError <= made.clock <= requested.clock
  }

  ghost predicate MeetSeq(requested: seq<Step>, made: seq<Step>, maxError: nat) {
    |requested| == |made| && forall i :: 0 <= i < |made| ==> Meets(requested[i], made[i], maxError)
  }

  /** Queued low words of step clocks, relative to the last step. */
  function Relative(queue: seq<int>, last: int): (r: seq<int>)
    ensures |r| == |queue| && forall i :: 0 <= i < |r| ==> r[i] == Low(queue[i] - last)
  {
    seq(|queue|, i requires 0 <= i < |queue| => Low(queue[i] - last))
  }

  function Absolute(rel: seq<int>, last: int, dir: bool): (s: seq<Step>)
    ensures |s| == |rel| && forall i :: 0 <= i < |s| ==> s[i] == Step(last + rel[i], dir)
  {
    seq(|rel|, i requires 0 <= i < |rel| => Step(last + rel[i], dir))
  }

  /** The steps as the micro-controller sees them. */
  function OnWire(steps: seq<Step>, invert: bool): (r: seq<Step>)
    ensures |r| == |steps| && forall i :: 0 <= i < |r| ==> r[i] == Step(Low(steps[i].clock), steps[i].dir != invert)
  {
    seq(|steps|, i requires 0 <= i < |steps| => Step(Low(steps[i].clock), steps[i].dir != invert))
  }

  /** Steps covered by a command, with full clocks. */
  function Covered(last: int, dir: bool, m: StepMove): (s: seq<Step>)
    requires 0 <= m.count
    ensures |s| == m.count
    ensures forall i :: 0 <= i < |s| ==> s[i] == Step(last + Travel(m.interval, m.add, i + 1), dir)
  {
    seq(m.count, i requires 0 <= i < m.count => Step(last + Travel(m.interval, m.add, i + 1), dir))
  }

  /** The requests are `met + due`; `made` are the steps sent in place of `met`. */
  datatype Host = Host(
    start: nat, met: seq<Step>, made: seq<Step>, due: seq<Step>,
    cmds: seq<Cmd>, queue: seq<int>, last: int, sdir: int, invert: bool, maxError: nat, position: int)

  ghost function Origin(s: Host): Wheel { Wheel(Low(s.start), false) }

  /** The commands replay to the steps made and leave the wheel at the last of them. */
  ghost predicate Replays(s: Host) {
    && Replay(s.cmds, Origin(s)) == OnWire(s.made, s.invert)
    && After(s.cmds, Origin(s)).clock == Low(s.last)
    && (s.sdir >= 0 ==> After(s.cmds, Origin(s)).dir == ((s.sdir == 1) != s.invert))
  }

  ghost predicate Matches(s: Host) {
    MeetSeq(s.met, s.made, s.maxError) && s.last == LastClock(s.made, s.start)
  }

  ghost predicate Pending(s: Host) {
    && Bounded(Relative(s.queue, s.last))
    && s.due == Absolute(Relative(s.queue, s.last), s.last, s.sdir == 1)
    && (s.queue != [] ==> s.sdir >= 0)
  }

  // ----- a command for the steps at the head of the queue -----

  ghost predicate Sendable(s: Host, m: StepMove) {
    s.sdir >= 0 && Good(Relative(s.queue, s.last), s.maxError, m)
    && Bounded(Relative(s.queue, s.last)) && |s.due| == |s.queue|
  }

  ghost function Sending(s: Host, m: StepMove): Host
    requires Sendable(s, m)
  {
    var steps := Covered(s.last, s.sdir == 1, m);
    s.(met := s.met + s.due[..m.count], made := s.made + steps, due := s.due[m.count..],
       cmds := s.cmds + [QueueStep(m.interval, m.count, m.add)], queue := s.queue[m.count..],
       last := s.last + Travel(m.interval, m.add, m.count), position := s.position + Signed(s.sdir == 1, m.count))
  }

  /** A command makes exactly the steps it covers. */
  lemma CoveredBurst(last: int, dir: bool, invert: bool, m: StepMove)
    requires 0 <= m.count
    ensures Burst(Low(last), dir != invert, m.interval, m.add, m.count) == OnWire(Covered(last, dir, m), invert)
  {
    var b, w := Burst(Low(last), dir != invert, m.interval, m.add, m.count), OnWire(Covered(last, dir, m), invert);
    forall k | 0 <= k < m.count ensures b[k] == w[k] {
      LowAdds(last, Travel(m.interval, m.add, k + 1));
    }
  }

  lemma OnWireAppends(a: seq<Step>, b: seq<Step>, invert: bool)
    ensures OnWire(a + b, invert) == OnWire(a, invert) + OnWire(b, invert)
  {
  }

  /** One more command makes its steps. */
  lemma CommandReplays(s: Host, c: Cmd, steps: seq<Step>, t: Host)
    requires Replays(s) && s.sdir >= 0 && c.QueueStep? && 1 <= c.count == |steps|
    requires Burst(Low(s.last), (s.sdir == 1) != s.invert, c.interval, c.add, c.count) == OnWire(steps, s.invert)
    requires t.start == s.start && t.made == s.made + steps && t.cmds == s.cmds + [c]
    requires t.last == steps[|steps|-1].clock
    requires t.sdir == s.sdir && t.invert == s.invert
    ensures Replays(t)
  {
    ReplaySnoc(s.cmds, c, Origin(s));
    OnWireAppends(s.made, steps, s.invert);
  }

  lemma SendingReplays(s: Host, m: StepMove)
    requires Sendable(s, m) && Replays(s)
    ensures Replays(Sending(s, m))
  {
    CoveredBurst(s.last, s.sdir == 1, s.invert, m);
    CommandReplays(s, QueueStep(m.interval, m.count, m.add), Covered(s.last, s.sdir == 1, m), Sending(s, m));
  }

  lemma CoveredMeets(pts: seq<int>, maxError: nat, m: StepMove, last: int, dir: bool)
    requires Good(pts, maxError, m)
    ensures MeetSeq(Absolute(pts, last, dir)[..m.count], Covered(last, dir, m), maxError)
  {
    var a, c := Absolute(pts, last, dir), Covered(last, dir, m);
    forall k | 0 <= k < m.count ensures Meets(a[k], c[k], maxError) {
      assert FitsAt(pts, maxError, m.interval, m.add, k + 1);
      TravelIsLine(m.interval, m.add, k + 1);
    }
  }

  lemma MeetAppends(a: seq<Step>, b: seq<Step>, c: seq<Step>, d: seq<Step>, maxError: nat)
    requires MeetSeq(a, b, maxError) && MeetSeq(c, d, maxError)
    ensures MeetSeq(a + c, b + d, maxError)
  {
  }

  lemma SendingMatches(s: Host, m: StepMove)
    requires Sendable(s, m) && Matches(s) && Pending(s)
    ensures Matches(Sending(s, m))
  {
    CoveredMeets(Relative(s.queue, s.last), s.maxError, m, s.last, s.sdir == 1);
    MeetAppends(s.met, s.made, s.due[..m.count], Covered(s.last, s.sdir == 1, m), s.maxError);
  }

  function Lowered(r: seq<int>, d: int): (s: seq<int>)
    ensures |s| == |r| && forall i :: 0 <= i < |s| ==> s[i] == r[i] - d
  {
    seq(|r|, i requires 0 <= i < |r| => r[i] - d)
  }

  lemma LowLess(x: int, d: int)
    requires 0 <= d <= Low(x)
    ensures Low(x - d) == Low(x) - d
  {
    LowAdds(x, -d);
  }

  lemma RelativeShifts(queue: seq<int>, last: int, n: nat, d: int)
    requires n <= |queue| && Bounded(Relative(queue, last)) && 0 <= d
    requires n < |queue| ==> d < Relative(queue, last)[n]
    ensures Relative(queue[n..], last + d) == Lowered(Relative(queue, last)[n..], d)
    ensures Bounded(Relative(queue[n..], last + d))
  {
    hide Low;
    var r, r' := Relative(queue, last), Relative(queue[n..], last + d);
    forall j | 0 <= j < |r'| ensures r'[j] == r[n + j] - d {
      Ordered(r, n, n + j);
      LowLess(queue[n + j] - last, d);
    }
    forall j | 0 <= j < |r'| ensures Rises(r', j) { assert Rises(r, n + j); }
  }

  lemma TravelGrows(pts: seq<int>, maxError: nat, m: StepMove)
    requires Bounded(pts) && Good(pts, maxError, m)
    ensures 0 < Travel(m.interval, m.add, m.count) <= pts[m.count-1]
    ensures m.count < |pts| ==> Travel(m.interval, m.add, m.count) < pts[m.count]
  {
    LineGrows(pts, maxError, m);
    TravelIsLine(m.interval, m.add, m.count);
    if m.count < |pts| { Ordered(pts, m.count - 1, m.count); }
  }

  lemma AbsoluteShifts(r: seq<int>, last: int, dir: bool, n: nat, d: int)
    requires n <= |r|
    ensures Absolute(Lowered(r[n..], d), last + d, dir) == Absolute(r, last, dir)[n..]
  {
  }

  lemma SendingPending(s: Host, m: StepMove)
    requires Sendable(s, m) && Pending(s)
    ensures Pending(Sending(s, m))
    ensures s.last < Sending(s, m).last
  {
    hide Low, Bounded, Travel, Relative, Absolute, Lowered, Covered, Fits, Signed;
    var pts := Relative(s.queue, s.last);
    TravelGrows(pts, s.maxError, m);
    RelativeShifts(s.queue, s.last, m.count, Travel(m.interval, m.add, m.count));
    AbsoluteShifts(pts, s.last, s.sdir == 1, m.count, Travel(m.interval, m.add, m.count));
  }

  // ----- a far step and a change of direction, both with an empty queue -----

  ghost function SendingFar(s: Host, clock: int): Host {
    var step := Step(clock, s.sdir == 1);
    s.(met := s.met + [step], made := s.made + [step],
       cmds := s.cmds + [QueueStep(Low(clock - s.last), 1, 0)], last := clock,
       position := s.position + Signed(s.sdir == 1, 1))
  }

  lemma FarBurst(last: int, clock: int, dir: bool, invert: bool)
    ensures Burst(Low(last), dir != invert, Low(clock - last), 0, 1) == OnWire([Step(clock, dir)], invert)
  {
    assert Travel(Low(clock - last), 0, 1) ==
      Low(clock - last) + Travel(Low(clock - last) + 0, 0, 0) == Low(clock - last);
    LowAdds(last, clock - last);
  }

  lemma SendingFarSound(s: Host, clock: int)
    requires Replays(s) && Matches(s) && Pending(s) && s.queue == [] && s.sdir >= 0
    ensures Replays(SendingFar(s, clock)) && Matches(SendingFar(s, clock)) && Pending(SendingFar(s, clock))
  {
    var step := Step(clock, s.sdir == 1);
    FarBurst(s.last, clock, s.sdir == 1, s.invert);
    CommandReplays(s, QueueStep(Low(clock - s.last), 1, 0), [step], SendingFar(s, clock));
    MeetAppends(s.met, s.made, [step], [step], s.maxError);
  }

  ghost function Turning(s: Host, dir: bool): Host {
    s.(cmds := s.cmds + [SetDir(dir != s.invert)], sdir := if dir then 1 else 0)
  }

  lemma TurningSound(s: Host, dir: bool)
    requires Replays(s) && Matches(s) && Pending(s) && s.queue == []
    ensures Replays(Turning(s, dir)) && Matches(Turning(s, dir)) && Pending(Turning(s, dir))
  {
    ReplaySnoc(s.cmds, SetDir(dir != s.invert), Origin(s));
  }

  // ----- a new request -----

  ghost function Queueing(s: Host, clock: int): Host {
    s.(due := s.due + [Step(clock, s.sdir == 1)], queue := s.queue + [Low(clock)])
  }

  /** The distance to a near clock can be read off its low word. */
  lemma NearWord(clock: int, last: int)
    requires 0 <= clock - last < TWO32
    ensures Low(Low(clock) - last) == clock - last
  {
    LowAdds(clock, -last);
  }

  lemma RelativeAppends(queue: seq<int>, last: int, clock: int)
    requires Bounded(Relative(queue, last)) && last < clock < last + CLOCK_DIFF_MAX
    requires queue != [] ==> last + Relative(queue, last)[|queue|-1] < clock
    ensures Relative(queue + [Low(clock)], last) == Relative(queue, last) + [clock - last]
    ensures Bounded(Relative(queue + [Low(clock)], last))
  {
    NearWord(clock, last);
    var q, r := Relative(queue, last), Relative(queue + [Low(clock)], last);
    assert r == q + [clock - last];
    forall i | 0 <= i < |r| ensures Rises(r, i) { if i < |queue| { assert Rises(q, i); } }
  }

  lemma QueueingSound(s: Host, clock: int)
    requires Pending(s) && s.sdir >= 0 && s.last < clock < s.last + CLOCK_DIFF_MAX
    requires s.due != [] ==> s.due[|s.due|-1].clock < clock
    ensures Pending(Queueing(s, clock))
    ensures Replays(s) ==> Replays(Queueing(s, clock))
    ensures Matches(s) ==> Matches(Queueing(s, clock))
  {
    RelativeAppends(s.queue, s.last, clock);
  }
}
