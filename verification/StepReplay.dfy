/**
 What a list of stepper commands means: the clocks and directions of the steps the
 micro-controller makes, in its 32-bit clock.
 */
module StepReplay {
  import opened Word32
  import opened StepLine
  import opened StepCheck

  datatype Cmd = QueueStep(interval: int, count: nat, add: int) | SetDir(dir: bool)

  datatype Step = Step(clock: int, dir: bool)

  /** Where the next command starts: the clock of the last step and the direction set for the next one. */
  datatype Wheel = Wheel(clock: int, dir: bool)

  /** Distance covered by the first k gaps, each gap `add` longer than the one before. */
  function Travel(interval: int, add: int, k: nat): int
    decreases k
  {
    if k == 0 then 0 else interval + Travel(interval + add, add, k - 1)
  }

  /** The steps of one command that starts from the given clock. */
  function Burst(clock: int, dir: bool, interval: int, add: int, n: nat): (s: seq<Step>)
    ensures |s| == n
    ensures forall k :: 0 <= k < n ==> s[k] == Step(Low(clock + Travel(interval, add, k + 1)), dir)
  {
    seq(n, k requires 0 <= k < n => Step(Low(clock + Travel(interval, add, k + 1)), dir))
  }

  /** Clock of the last step, if there is one. */
  function LastClock(steps: seq<Step>, clock: int): int {
    if steps == [] then clock else steps[|steps|-1].clock
  }

  function After(cmds: seq<Cmd>, w: Wheel): Wheel {
    if cmds == [] then w
    else
      var v := After(cmds[..|cmds|-1], w);
      match cmds[|cmds|-1]
      case SetDir(d) => v.(dir := d)
      case QueueStep(interval, count, add) =>
        v.(clock := LastClock(Burst(v.clock, v.dir, interval, add, count), v.clock))
  }

  function Replay(cmds: seq<Cmd>, w: Wheel): seq<Step> {
    if cmds == [] then []
    else
      var v := After(cmds[..|cmds|-1], w);
      var before := Replay(cmds[..|cmds|-1], w);
      match cmds[|cmds|-1]
      case SetDir(_) => before
      case QueueStep(interval, count, add) => before + Burst(v.clock, v.dir, interval, add, count)
  }

  lemma ReplaySnoc(cmds: seq<Cmd>, c: Cmd, w: Wheel)
    ensures var v := After(cmds, w);
            && After(cmds + [c], w) == (match c
                 case SetDir(d) => v.(dir := d)
                 case QueueStep(interval, count, add) =>
                   v.(clock := LastClock(Burst(v.clock, v.dir, interval, add, count), v.clock)))
            && Replay(cmds + [c], w) == Replay(cmds, w) + (match c
                 case SetDir(_) => []
                 case QueueStep(interval, count, add) => Burst(v.clock, v.dir, interval, add, count))
  {
    assert (cmds + [c])[..|cmds|] == cmds;
  }

  /** The recurrence has the closed form of a line. */
  lemma {:induction false} TravelIsLine(interval: int, add: int, k: nat)
    ensures Travel(interval, add, k) == Line(interval, add, k)
    decreases k
  {
    if k == 0 {
      assert Line(interval, add, 0) == 0;
    } else {
      TravelIsLine(interval + add, add, k - 1);
      ShiftLine(interval, add, k);
    }
  }

  lemma ShiftLine(interval: int, add: int, k: int)
    requires 1 <= k
    ensures Line(interval, add, k) == interval + Line(interval + add, add, k - 1)
  {
    TriStep(k - 1);
    assert (interval + add) * (k - 1) == interval * (k - 1) + add * (k - 1);
    assert add * (Tri(k - 1) + (k - 1)) == add * Tri(k - 1) + add * (k - 1);
  }

  /** Net signed number of steps. */
  function Net(steps: seq<Step>): int {
    if steps == [] then 0 else Net(steps[..|steps|-1]) + Sign(steps[|steps|-1].dir)
  }

  function Sign(dir: bool): int { if dir then 1 else -1 }

  function Signed(dir: bool, n: int): int { if dir then n else -n }

  lemma {:induction false} NetAppend(a: seq<Step>, b: seq<Step>)
    ensures Net(a + b) == Net(a) + Net(b)
  {
    if b == [] {
      assert a + b == a;
    } else {
      assert (a + b)[..|a + b|-1] == a + b[..|b|-1];
      NetAppend(a, b[..|b|-1]);
    }
  }

  lemma {:induction false} NetUniform(s: seq<Step>, dir: bool)
    requires forall i :: 0 <= i < |s| ==> s[i].dir == dir
    ensures Net(s) == Signed(dir, |s|)
  {
    if s != [] { NetUniform(s[..|s|-1], dir); }
  }
}
