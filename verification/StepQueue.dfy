/**
 The host side of a stepper: step clocks come in, compressed commands go out.

 The object's invariant is that of `StepHistory`: everything sent so far replays to the steps
 requested so far, each in its window, and what has not been sent is queued.
 */
module StepQueue {
  import opened Word32
  import opened StepLine
  import opened CompressSearch
  import opened StepCheck
  import opened StepReplay
  import opened StepHistory
  import opened StepSound

  /** Clocks used to schedule the transmission of a command. */
  datatype Timing = Timing(minClock: nat, reqClock: nat)

  /** The clock of the last step of a command, computed in 32 bits from the clock of the first. */
  method EndClock(firstClock: int, m: StepMove, ghost pts: seq<int>, ghost maxError: nat) returns (lastClock: int)
    requires Bounded(pts) && Good(pts, maxError, m)
    ensures lastClock == firstClock - m.interval + Travel(m.interval, m.add, m.count)
  {
    TicksExact(pts, maxError, m);
    TravelIsLine(m.interval, m.add, m.count);
    lastClock := firstClock + Ticks(m);
  }

  class StepCompress {
    const maxError: nat
    const invertSdir: bool
    var queue: seq<int>          // low words of the clocks of the steps not sent yet
    var lastStepClock: nat
    var cmds: seq<Cmd>
    var timing: seq<Timing>      // one for each command
    var sdir: int                // direction last sent, -1 before the first
    var nextStepClock: nat       // a step that may still be rolled back; 0 for none
    var nextStepDir: bool
    var lastPosition: int
    ghost const start: nat
    ghost var met: seq<Step>
    ghost var made: seq<Step>
    ghost var due: seq<Step>
    ghost var submitted: int     // net number of steps handed in

    ghost function Model(): Host
      reads this
    {
      Host(start, met, made, due, cmds, queue, lastStepClock, sdir, invertSdir, maxError, lastPosition)
    }

    ghost function Requested(): seq<Step>
      reads this
    {
      met + due
    }

    ghost predicate Valid()
      reads this
    {
      Sound(Model()) && |timing| == |cmds|
    }

    constructor (start: nat, maxError: nat, invertSdir: bool)
      requires start < MAX_CLOCK64
      ensures Valid() && Requested() == [] && cmds == [] && this.start == start
      ensures nextStepClock == 0 && submitted == 0
    {
      this.maxError, this.invertSdir, this.start := maxError, invertSdir, start;
      queue, lastStepClock, cmds, timing, sdir := [], start, [], [], -1;
      nextStepClock, nextStepDir, lastPosition := 0, false, 0;
      met, made, due, submitted := [], [], [], 0;
    }

    /** Queues a command for the steps of line m and drops them from the queue. */
    method AddMove(m: StepMove)
      requires Sendable(Model(), m) && |met| == |made|
      modifies this`queue, this`cmds, this`timing, this`lastStepClock, this`lastPosition, this`met, this`made, this`due
      ensures Model() == Sending(old(Model()), m)
      ensures timing == old(timing) + [Timing(old(lastStepClock), old(lastStepClock) +
        if m.count == 1 && m.interval >= CLOCK_DIFF_MAX then m.interval else 0)]
    {
      TravelGrows(Relative(queue, lastStepClock), maxError, m);
      var firstClock := lastStepClock + m.interval;
      var lastClock := EndClock(firstClock, m, Relative(queue, lastStepClock), maxError);
      var req := if m.count == 1 && firstClock >= lastStepClock + CLOCK_DIFF_MAX then firstClock else lastStepClock;
      met, made, due := met + due[..m.count], made + Covered(lastStepClock, sdir == 1, m), due[m.count..];
      cmds, timing := cmds + [QueueStep(m.interval, m.count, m.add)], timing + [Timing(lastStepClock, req)];
      lastPosition := lastPosition + (if sdir == 1 then m.count else -m.count);
      queue, lastStepClock := queue[m.count..], lastClock;
    }

    /** Finds a command for the head of the queue and checks it; the check never fails. */
    method ChooseMove() returns (m: StepMove, ok: bool)
      requires Pending(Model()) && queue != []
      ensures ok && Sendable(Model(), m)
    {
      var pts := Relative(queue, lastStepClock);
      ghost var tried;
      m, tried := CompressBisectAdd(pts, maxError);
      MoveInRange(pts, maxError, m);
      ok := CheckLine(pts, maxError, m);
    }

    /** Sends one command for the head of the queue. */
    method SendOne() returns (ok: bool)
      requires Valid() && queue != []
      modifies this`queue, this`cmds, this`timing, this`lastStepClock, this`lastPosition, this`met, this`made, this`due
      ensures ok && Valid() && Requested() == old(Requested())
      ensures |queue| < |old(queue)| && old(lastStepClock) < lastStepClock
      ensures |timing| == |old(timing)| + 1 && old(timing) < timing
      ensures timing[|old(timing)|].minClock == old(lastStepClock)
    {
      hide Sound, Sendable, Pending;
      SoundShape(Model());
      var m;
      m, ok := ChooseMove();
      if !ok { return; }
      SendingSound(Model(), m);
      AddMove(m);
    }

    /** The commands added since there were n of them were sent after a last step before the given clock. */
    ghost predicate SentBefore(n: nat, clock: int)
      reads this
    {
      forall i :: n <= i < |timing| ==> timing[i].minClock < clock
    }

    /** Turns queued steps into commands until the last step sent reaches moveClock, and no further; the check
        of a command never fails. */
    method QueueFlush(moveClock: int) returns (ok: bool)
      requires Valid()
      modifies this`queue, this`cmds, this`timing, this`lastStepClock, this`lastPosition, this`met, this`made, this`due
      ensures ok && Valid() && Requested() == old(Requested())
      ensures queue == [] || lastStepClock >= moveClock
      ensures lastStepClock >= old(lastStepClock)
      ensures old(timing) <= timing && SentBefore(|old(timing)|, moveClock)
    {
      hide Sound;
      ok := true;
      while queue != [] && lastStepClock < moveClock
        invariant ok && Valid() && Requested() == old(Requested())
        invariant lastStepClock >= old(lastStepClock)
        invariant old(timing) <= timing && SentBefore(|old(timing)|, moveClock)
        decreases |queue|
      {
        ok := SendOne();
      }
    }

    /** Sends everything queued, then the new direction, if it differs from the one sent last. */
    method SetNextStepDir(dir: bool) returns (ok: bool)
      requires Valid()
      modifies this`queue, this`cmds, this`timing, this`lastStepClock, this`lastPosition, this`met, this`made, this`due
      modifies this`sdir
      ensures ok && Valid() && Requested() == old(Requested())
      ensures sdir == if dir then 1 else 0
      ensures sdir == old(sdir) ==>
        cmds == old(cmds) && timing == old(timing) && queue == old(queue) && lastStepClock == old(lastStepClock)
      ensures sdir != old(sdir) ==> queue == [] && cmds != [] && cmds[|cmds|-1] == SetDir(dir != invertSdir)
      ensures sdir != old(sdir) ==> timing != [] && timing[|timing|-1] == Timing(0, lastStepClock)
    {
      hide Sound;
      if sdir == if dir then 1 else 0 {
        return true;
      }
      ok := QueueFlush(MAX_CLOCK64);
      if !ok { return; }
      LastNotBeyond(Model());
      TurnSound(Model(), dir);
      cmds, timing := cmds + [SetDir(dir != invertSdir)], timing + [Timing(0, lastStepClock)];
      sdir := if dir then 1 else 0;
    }

    /** Puts a step within reach on the queue. */
    method Enqueue(clock: nat)
      requires Valid() && sdir >= 0 && clock < MAX_CLOCK64
      requires LastClock(Requested(), start) < clock < lastStepClock + CLOCK_DIFF_MAX
      modifies this`queue, this`due
      ensures Valid() && Requested() == old(Requested()) + [Step(clock, sdir == 1)]
      ensures queue == old(queue) + [Low(clock)]
    {
      LastNotBeyond(Model());
      RequestSound(Model(), clock);
      queue, due := queue + [Low(clock)], due + [Step(clock, sdir == 1)];
    }

    /** Sends a single step that is far away; only done with an empty queue. */
    method FlushFar(clock: nat)
      requires lastStepClock < clock
      modifies this`cmds, this`timing, this`lastStepClock, this`lastPosition, this`met, this`made
      ensures Model() == SendingFar(old(Model()), clock)
      ensures timing == old(timing) + [Timing(old(lastStepClock),
        if clock >= old(lastStepClock) + CLOCK_DIFF_MAX then clock else old(lastStepClock))]
    {
      var req := if clock >= lastStepClock + CLOCK_DIFF_MAX then clock else lastStepClock;
      cmds, timing := cmds + [QueueStep(Low(clock - lastStepClock), 1, 0)], timing + [Timing(lastStepClock, req)];
      met, made := met + [Step(clock, sdir == 1)], made + [Step(clock, sdir == 1)];
      lastPosition := lastPosition + (if sdir == 1 then 1 else -1);
      lastStepClock := clock;
    }

    /** Sends a single step that is far away with a command of its own. */
    method SendFar(clock: nat)
      requires Valid() && sdir >= 0 && queue == [] && lastStepClock < clock < MAX_CLOCK64
      modifies this`cmds, this`timing, this`lastStepClock, this`lastPosition, this`met, this`made
      ensures Valid() && Requested() == old(Requested()) + [Step(clock, sdir == 1)]
      ensures lastStepClock == clock && |cmds| == |old(cmds)| + 1
      ensures |timing| == |old(timing)| + 1 && old(timing) < timing
      ensures timing[|old(timing)|].minClock == old(lastStepClock)
    {
      FarSound(Model(), clock);
      FlushFar(clock);
    }

    /** Handles a step that may be far away: sends what is needed to bring it within reach, and no more. */
    method AppendFar(clock: nat) returns (ok: bool)
      requires Valid() && sdir >= 0 && clock < MAX_CLOCK64
      requires LastClock(Requested(), start) < clock && lastStepClock + CLOCK_DIFF_MAX <= clock
      modifies this`queue, this`cmds, this`timing, this`lastStepClock, this`lastPosition, this`met, this`made, this`due
      ensures ok && Valid() && Requested() == old(Requested()) + [Step(clock, sdir == 1)]
      ensures old(timing) <= timing && SentBefore(|old(timing)|, clock - CLOCK_DIFF_MAX + 1)
    {
      hide Sound;
      ok := QueueFlush(clock - CLOCK_DIFF_MAX + 1);
      if !ok { return; }
      LastNotBeyond(Model());
      if clock >= lastStepClock + CLOCK_DIFF_MAX {
        SendFar(clock);
      } else {
        Enqueue(clock);
      }
    }

    /** When the storage is used up and more than enough steps are queued, sends all but the newest, of which
        one command can hold all. */
    method AppendExtend(clock: nat) returns (ok: bool)
      requires Valid() && sdir >= 0 && clock < MAX_CLOCK64
      requires LastClock(Requested(), start) < clock < lastStepClock + CLOCK_DIFF_MAX
      modifies this`queue, this`cmds, this`timing, this`lastStepClock, this`lastPosition, this`met, this`made, this`due
      ensures ok && Valid() && Requested() == old(Requested()) + [Step(clock, sdir == 1)]
      ensures |old(queue)| <= MAX_COUNT + 2000 ==> cmds == old(cmds) && queue == old(queue) + [Low(clock)]
      ensures |old(queue)| > MAX_COUNT + 2000 ==> |queue| <= MAX_COUNT
      ensures |old(queue)| > MAX_COUNT + 2000 ==>
        SentBefore(|old(timing)|, old(lastStepClock) + Low(old(queue)[|old(queue)| - MAX_COUNT] - old(lastStepClock)))
    {
      hide Sound;
      ok := true;
      SoundShape(Model());
      if |queue| > MAX_COUNT + 2000 {
        ghost var before := Model();
        var flush := Low(queue[|queue| - MAX_COUNT] - lastStepClock);
        ok := QueueFlush(lastStepClock + flush);
        if !ok { return; }
        SoundShape(Model());
        FewLeft(before, Model());
        LastNotBeyond(Model());
      }
      Enqueue(clock);
    }

    /** Commits the pending step.  `full` says that the storage of the queue is used up. */
    method QueueAppend(full: bool) returns (ok: bool)
      requires Valid() && LastClock(Requested(), start) < nextStepClock < MAX_CLOCK64
      modifies this
      ensures ok && Valid() && nextStepClock == 0 && submitted == old(submitted)
      ensures Requested() == old(Requested()) + [Step(old(nextStepClock), old(nextStepDir))]
      ensures old(sdir) == sdir && old(nextStepClock) < old(lastStepClock) + CLOCK_DIFF_MAX ==>
        if full && |old(queue)| > MAX_COUNT + 2000 then |queue| <= MAX_COUNT else cmds == old(cmds)
    {
      hide Sound, Net;
      var clock := nextStepClock;
      ok := SetNextStepDir(nextStepDir);
      if !ok { return; }
      nextStepClock := 0;
      if clock >= lastStepClock + CLOCK_DIFF_MAX {
        ok := AppendFar(clock);
      } else if full {
        ok := AppendExtend(clock);
      } else {
        Enqueue(clock);
      }
    }

    /** Everything handed in is requested, or pending, or has been rolled back in pairs. */
    ghost predicate Settled()
      reads this
    {
      Valid() && Steady(Requested(), start, nextStepClock, nextStepDir, submitted)
    }

    /** The pending step, as a list. */
    ghost function Held(): seq<Step>
      reads this
    {
      if nextStepClock != 0 then [Step(nextStepClock, nextStepDir)] else []
    }

    /** Commits the pending step, if any. */
    method Commit(full: bool) returns (ok: bool)
      requires Settled()
      modifies this
      ensures ok && Settled() && submitted == old(submitted) && nextStepClock == 0
      ensures Requested() == old(Requested()) + old(Held())
    {
      hide Sound;
      if nextStepClock == 0 {
        return true;
      }
      SteadyCommit(Requested(), start, nextStepClock, nextStepDir, submitted);
      ok := QueueAppend(full);
    }

    /** A step back less than `filter` ticks after the pending step, or before it, cancels it. */
    predicate Cancels(dir: bool, clock: nat, filter: nat)
      reads this
    {
      nextStepClock != 0 && dir != nextStepDir && clock - nextStepClock < filter
    }

    /** Takes in a step.  Only a step that is kept has to come after the ones before it. */
    method Append(dir: bool, clock: nat, filter: nat, full: bool) returns (ok: bool)
      requires Settled() && clock < MAX_CLOCK64
      requires Cancels(dir, clock, filter) || (0 < clock && LastClock(Requested() + Held(), start) < clock)
      modifies this
      ensures ok && Settled() && submitted == old(submitted) + Sign(dir)
      ensures if old(Cancels(dir, clock, filter))
              then Held() == [] && Requested() == old(Requested())
              else Held() == [Step(clock, dir)] && Requested() == old(Requested() + Held())
    {
      hide Sound, Steady, LastClock, Net;
      ok := true;
      if Cancels(dir, clock, filter) {
        SteadyRollback(Requested(), start, nextStepClock, nextStepDir, submitted);
        nextStepClock, nextStepDir, submitted := 0, dir, submitted + Sign(dir);
        return;
      }
      ok := Commit(full);
      if !ok { return; }
      SteadyHold(Requested(), start, clock, nextStepDir, dir, submitted);
      nextStepClock, nextStepDir, submitted := clock, dir, submitted + Sign(dir);
    }

    method CommitUpTo(moveClock: int, full: bool) returns (ok: bool)
      requires Settled()
      modifies this
      ensures ok && Settled() && submitted == old(submitted)
      ensures Requested() + Held() == old(Requested() + Held())
      ensures nextStepClock == 0 || moveClock < nextStepClock
      ensures old(nextStepClock) == 0 || moveClock < old(nextStepClock) ==>
        nextStepClock == old(nextStepClock) && timing == old(timing)
    {
      hide Sound, Steady, LastClock, Net;
      ok := true;
      if nextStepClock != 0 && moveClock >= nextStepClock {
        ok := Commit(full);
      }
    }

    /** Sends the steps up to moveClock, the pending one included. */
    method Flush(moveClock: int, full: bool) returns (ok: bool)
      requires Settled()
      modifies this
      ensures ok && Settled() && submitted == old(submitted)
      ensures queue == [] || lastStepClock >= moveClock
      ensures Requested() + Held() == old(Requested() + Held())
      ensures nextStepClock == 0 || moveClock < nextStepClock
      ensures old(nextStepClock) == 0 || moveClock < old(nextStepClock) ==>
        nextStepClock == old(nextStepClock) && old(timing) <= timing && SentBefore(|old(timing)|, moveClock)
    {
      hide Sound, Steady, LastClock, Net;
      ok := CommitUpTo(moveClock, full);
      if !ok { return; }
      ok := QueueFlush(moveClock);
    }
  }

  /** Sending up to one of the queued steps leaves those after it. */
  lemma FewLeft(s: Host, t: Host)
    requires Pending(s) && Pending(t) && s.met + s.due == t.met + t.due && |s.queue| >= MAX_COUNT
    requires t.queue == [] || t.last >= s.last + Low(s.queue[|s.queue| - MAX_COUNT] - s.last)
    ensures |t.queue| < MAX_COUNT
  {
    hide Low;
    if |t.queue| >= MAX_COUNT {
      var k, j := |s.queue| - MAX_COUNT, |t.queue| - MAX_COUNT;
      var all := s.met + s.due;
      assert all[|all| - MAX_COUNT] == s.due[k] && all[|all| - MAX_COUNT] == t.due[j];
      Ordered(Relative(t.queue, t.last), 0, j);
    }
  }

  lemma MoveInRange(pts: seq<int>, maxError: nat, m: StepMove)
    requires Bounded(pts) && Good(pts, maxError, m)
    ensures 0 <= m.interval < TWO32
  {
    FitsFirst(pts, maxError, m);
  }
}
