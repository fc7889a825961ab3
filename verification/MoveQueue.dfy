/**
 The look-ahead queue as an object: moves whose limits are tightened in place and a queue
 that a backward pass walks and then shortens from the front.
 */
module MoveQueue {
  import opened LookaheadPlan
  import opened LookaheadFinality
  import Run = LookaheadRun

  class Move {
    const kinematic: bool
    const moveD: real
    var accel: real
    var minMoveT: real
    var maxStart: real
    var maxCruise: real
    var delta: real
    var maxSmoothed: real
    var smoothDelta: real
    var junction: Junction
    ghost var settings: nat  // number of calls of SetJunction

    ghost function Limits(): Limits
      reads this`accel, this`maxStart, this`maxCruise, this`delta, this`maxSmoothed, this`smoothDelta
    {
      LookaheadPlan.Limits(kinematic, moveD, accel, maxStart, maxCruise, delta, maxSmoothed, smoothDelta)
    }

    constructor (kinematic: bool, moveD: real, accel: real, velocity: real, accelToDecel: real)
      requires 0.0 < moveD && 0.0 < velocity && 0.0 < accelToDecel <= accel
      ensures WellFormed(Limits()) && maxStart == 0.0 && settings == 0
      ensures Limits() == LookaheadPlan.Limits(kinematic, moveD, accel, 0.0, velocity * velocity,
                                               2.0 * moveD * accel, 0.0, 2.0 * moveD * accelToDecel)
      ensures minMoveT * velocity == moveD
    {
      this.kinematic, this.moveD, this.accel := kinematic, moveD, accel;
      minMoveT := moveD / velocity;
      maxStart, maxSmoothed := 0.0, 0.0;
      maxCruise := velocity * velocity;
      delta := 2.0 * moveD * accel;
      smoothDelta := 2.0 * moveD * accelToDecel;
      junction, settings := Junction(0.0, 0.0, 0.0), 0;
      new;
      assert moveD * accelToDecel <= moveD * accel && 0.0 < moveD * accelToDecel;
    }

    /** Tightens the cruise speed and the acceleration; the smoothing limit never exceeds the real one. */
    method LimitSpeed(speed: real, newAccel: real)
      requires WellFormed(Limits()) && maxStart == 0.0 && 0.0 < speed && 0.0 < newAccel
      modifies this
      ensures WellFormed(Limits()) && maxStart == 0.0 && settings == old(settings)
      ensures maxCruise <= old(maxCruise) && maxCruise <= speed * speed
      ensures maxCruise == old(maxCruise) || maxCruise == speed * speed
      ensures accel == Min(old(accel), newAccel)
      ensures smoothDelta == Min(old(smoothDelta), delta)
      ensures if speed * speed < old(maxCruise) then minMoveT * speed == moveD else minMoveT == old(minMoveT)
    {
      if speed * speed < maxCruise {
        maxCruise := speed * speed;
        minMoveT := moveD / speed;
      }
      accel := Min(accel, newAccel);
      delta := 2.0 * moveD * accel;
      assert 0.0 < moveD * accel;
      smoothDelta := Min(smoothDelta, delta);
    }

    /** Sets the start speed to the largest one that all limits allow, which joins the move to `prev`;
        moves that cannot be joined keep their start from rest. */
    method CalcJunction(prev: Move, opposed: bool, cap: real)
      modifies this`maxStart, this`maxSmoothed
      ensures prev != this && WellFormed(prev.Limits()) && Run.Fresh(Run.NewMove(old(Limits()), opposed, cap, minMoveT))
        ==> WellFormed(Limits()) && Joined(prev.Limits(), Limits())
      ensures prev != this && kinematic && prev.kinematic && !opposed ==>
        && maxStart <= cap && maxStart <= maxCruise && maxStart <= prev.maxCruise
        && maxStart <= prev.maxStart + prev.delta
        && maxStart in {cap, maxCruise, prev.maxCruise, prev.maxStart + prev.delta}
      ensures prev != this ==>
        Limits() == Run.CalcJunction(prev.Limits(), Run.NewMove(old(Limits()), opposed, cap, minMoveT))
    {
      ghost var m := Run.NewMove(Limits(), opposed, cap, minMoveT);
      if WellFormed(prev.Limits()) && Run.Fresh(m) { Run.CalcJunctionJoins(prev.Limits(), m); }
      if !kinematic || !prev.kinematic || opposed { return; }
      maxStart := Min(Min(cap, Min(maxCruise, prev.maxCruise)), prev.maxStart + prev.delta);
      maxSmoothed := Min(maxStart, prev.maxSmoothed + prev.smoothDelta);
    }

    method SetJunction(start: real, cruise: real, end: real)
      modifies this`junction, this`settings
      ensures junction == Junction(start, cruise, end) && settings == old(settings) + 1
    {
      junction := Junction(start, cruise, end);
      settings := settings + 1;
    }
  }

  /** The objects of the queue are distinct and have the limits q. */
  ghost predicate Holds(queue: seq<Move>, q: seq<Limits>)
    reads queue
  {
    && |queue| == |q|
    && (forall i, j :: 0 <= i < j < |queue| ==> queue[i] != queue[j])
    && (forall i :: 0 <= i < |queue| ==> queue[i].Limits() == q[i])
  }

  // ----- the values met by the backward pass -----

  /** The values of the planning functions at every index, as sequences. */
  datatype Trace = Trace(start: seq<real>, smoothed: seq<real>, accel: seq<bool>, peak: seq<real>,
                         cap: seq<real>, lazy: seq<int>, plan: seq<Junction>)

  ghost predicate Sized(t: Trace, n: nat) {
    && |t.start| == |t.smoothed| == |t.peak| == |t.lazy| == n + 1
    && |t.accel| == |t.cap| == |t.plan| == n
  }

  /** One step of the backward pass: the speeds. */
  ghost predicate SpeedsAt(t: Trace, m: Limits, n: nat, i: nat)
    requires Sized(t, n) && i < n
  {
    var reachable := t.smoothed[i + 1] + m.smoothDelta;
    var newPeak := t.accel[i] && (t.smoothed[i] + m.smoothDelta > t.smoothed[i + 1] || (i + 1 < n && !t.accel[i + 1]));
    && t.start[i] == Min(m.maxStart, t.start[i + 1] + m.delta)
    && t.smoothed[i] == Min(m.maxSmoothed, reachable)
    && t.accel[i] == (t.smoothed[i] < reachable)
    && t.peak[i] == (if newPeak then Min(m.maxCruise, (t.smoothed[i] + reachable) * 0.5) else t.peak[i + 1])
    && t.lazy[i] == (if t.lazy[i + 1] >= 0 then t.lazy[i + 1]
                     else if newPeak && t.peak[i + 1] != 0.0 then i else -1)
  }

  /** And the plan. */
  ghost predicate PlansAt(t: Trace, m: Limits, n: nat, i: nat)
    requires Sized(t, n) && i < n
  {
    && (i > 0 && !t.accel[i] ==> t.cap[i] == Min(if t.accel[i - 1] then t.peak[i - 1] else t.cap[i - 1], t.start[i]))
    && var c := if t.accel[i] then Min(Min((t.start[i] + t.start[i + 1] + m.delta) * 0.5, m.maxCruise), t.peak[i])
                else t.cap[i];
       t.plan[i] == Junction(Min(t.start[i], c), c, Min(t.start[i + 1], c))
  }

  ghost predicate StepAt(t: Trace, m: Limits, n: nat, i: nat)
    requires Sized(t, n) && i < n
  {
    SpeedsAt(t, m, n, i) && PlansAt(t, m, n, i)
  }

  ghost predicate IsTrace(t: Trace, q: seq<Limits>) {
    && Sized(t, |q|)
    && t.start[|q|] == t.smoothed[|q|] == t.peak[|q|] == 0.0 && t.lazy[|q|] == -1
    && (forall i :: 0 <= i < |q| ==> StepAt(t, q[i], |q|, i))
  }

  lemma TraceStep(t: Trace, q: seq<Limits>, i: nat)
    requires IsTrace(t, q) && i < |q|
    ensures SpeedsAt(t, q[i], |q|, i) && PlansAt(t, q[i], |q|, i)
  {
    hide SpeedsAt, PlansAt;
    assert StepAt(t, q[i], |q|, i);
  }

  /** The trace is the table of the values that the plan is made from. */
  ghost predicate Tabulates(t: Trace, q: seq<Limits>) {
    && Sized(t, |q|) && t.plan == Plan(q)
    && (forall i :: 0 <= i <= |q| ==> t.start[i] == Start(q, i))
    && (forall i :: 0 <= i <= |q| ==> t.smoothed[i] == Smoothed(q, i))
    && (forall i :: 0 <= i <= |q| ==> t.peak[i] == Peak(q, i))
    && (forall i :: 0 <= i <= |q| ==> t.lazy[i] == LazyCount(q, i))
    && (forall i :: 0 <= i < |q| ==> t.accel[i] == Accel(q, i))
    && (forall i :: 0 <= i < |q| ==> t.cap[i] == Cap(q, i))
  }

  lemma SpeedsUnfold(q: seq<Limits>, i: nat)
    requires i < |q|
    ensures Start(q, i) == Min(q[i].maxStart, Start(q, i + 1) + q[i].delta)
    ensures Smoothed(q, i) == Min(q[i].maxSmoothed, Smoothed(q, i + 1) + q[i].smoothDelta)
  {
  }

  lemma PeakUnfolds(q: seq<Limits>, i: nat)
    requires i < |q|
    ensures Peak(q, i) == if NewPeak(q, i)
                          then Min(q[i].maxCruise, (Smoothed(q, i) + (Smoothed(q, i + 1) + q[i].smoothDelta)) * 0.5)
                          else Peak(q, i + 1)
    ensures LazyCount(q, i) == if LazyCount(q, i + 1) >= 0 then LazyCount(q, i + 1)
                               else if NewPeak(q, i) && Peak(q, i + 1) != 0.0 then i else -1
  {
    hide Min, Smoothed, NewPeak;
  }

  lemma TableSpeeds(t: Trace, q: seq<Limits>, i: nat)
    requires Tabulates(t, q) && i < |q|
    ensures SpeedsAt(t, q[i], |q|, i)
  {
    hide Min, Start, Smoothed, Peak, LazyCount, Plan;
    SpeedsUnfold(q, i);
    PeakUnfolds(q, i);
  }

  lemma TablePlans(t: Trace, q: seq<Limits>, i: nat)
    requires Tabulates(t, q) && i < |q|
    ensures PlansAt(t, q[i], |q|, i)
  {
    hide Min, Start, Smoothed, Peak, Accel, LazyCount;
  }

  lemma MakeTrace(q: seq<Limits>) returns (t: Trace)
    ensures IsTrace(t, q)
    ensures forall i :: 0 <= i < |q| ==> t.plan[i] == PlanAt(q, i)
    ensures |q| > 0 ==> t.accel[0] == Accel(q, 0)
    ensures t.lazy[0] == LazyCount(q, 0)
  {
    hide SpeedsAt, PlansAt, PlanAt;
    var n := |q|;
    t := Trace(seq(n + 1, i requires 0 <= i <= n => Start(q, i)), seq(n + 1, i requires 0 <= i <= n => Smoothed(q, i)),
               seq(n, i requires 0 <= i < n => Accel(q, i)), seq(n + 1, i requires 0 <= i <= n => Peak(q, i)),
               seq(n, i requires 0 <= i < n => Cap(q, i)), seq(n + 1, i requires 0 <= i <= n => LazyCount(q, i)),
               Plan(q));
    assert Tabulates(t, q);
    forall i | 0 <= i < n ensures StepAt(t, q[i], n, i) {
      TableSpeeds(t, q, i);
      TablePlans(t, q, i);
    }
  }

  // ----- the backward pass -----

  /** The delayed moves are the decelerating moves from k up to top, the nearest one last. */
  ghost predicate DelayedFrom(queue: seq<Move>, t: Trace, k: nat, top: nat, delayed: seq<(Move, real, real)>)
    requires Sized(t, |queue|)
  {
    && k <= top <= |queue| && |delayed| == top - k
    && (k < |queue| ==> (k < top <==> !t.accel[k]))
    && (forall i :: k <= i < top ==>
          !t.accel[i] && delayed[top - 1 - i] == (queue[i], t.start[i], t.start[i + 1]))
  }

  /** The moves from lo up to hi have their plans, each set once; the others are untouched. */
  ghost predicate PlannedBetween(queue: seq<Move>, plan: seq<Junction>, lo: int, hi: int)
    requires |queue| == |plan|
    reads queue
  {
    forall i :: 0 <= i < |queue| ==>
      if lo <= i < hi then queue[i].junction == plan[i] && queue[i].settings == 1
      else queue[i].settings == 0
  }

  /** Gives the delayed moves after a new peak at move k their plans, in queue order. */
  method Propagate(queue: seq<Move>, ghost q: seq<Limits>, ghost t: Trace, ghost k: nat, ghost top: nat, ghost hi: nat,
                   delayed: seq<(Move, real, real)>, peak: real)
    requires Holds(queue, q) && IsTrace(t, q) && k < |q|
    requires DelayedFrom(queue, t, k + 1, top, delayed)
    requires t.accel[k] && peak == t.peak[k] && top <= hi <= |q|
    requires PlannedBetween(queue, t.plan, top, hi)
    modifies queue`junction, queue`settings
    ensures Holds(queue, q)
    ensures PlannedBetween(queue, t.plan, k + 1, hi)
  {
    hide StepAt, Min;
    var mc := peak;
    var j := |delayed|;
    ghost var i := k;
    while j > 0
      invariant 0 <= j <= |delayed| && i == top - 1 - j
      invariant mc == if i == k then t.peak[k] else t.cap[i]
      invariant Holds(queue, q)
      invariant forall x :: k < x <= i || top <= x < hi ==> queue[x].junction == t.plan[x] && queue[x].settings == 1
      invariant forall x :: 0 <= x <= k || i < x < top || hi <= x < |queue| ==> queue[x].settings == 0
    {
      j, i := j - 1, i + 1;
      var (m, ms, me) := delayed[j];
      CapStep(t, q, k, i);
      mc := Min(mc, ms);
      m.SetJunction(Min(ms, mc), mc, Min(me, mc));
    }
  }

  lemma CapStep(t: Trace, q: seq<Limits>, k: nat, i: nat)
    requires IsTrace(t, q) && k < i < |q| && !t.accel[i]
    requires if i == k + 1 then t.accel[k] else !t.accel[i - 1]
    ensures t.cap[i] == Min(if i == k + 1 then t.peak[k] else t.cap[i - 1], t.start[i])
    ensures t.plan[i] == Junction(Min(t.start[i], t.cap[i]), t.cap[i], Min(t.start[i + 1], t.cap[i]))
  {
    assert StepAt(t, q[i], |q|, i);
  }

  /** Sets the plan of move i, the one before the moves planned so far. */
  method PlanOne(queue: seq<Move>, ghost q: seq<Limits>, ghost plan: seq<Junction>, i: nat, ghost hi: nat,
                 start: real, cruise: real, end: real)
    requires Holds(queue, q) && |plan| == |queue| && i < hi <= |queue|
    requires PlannedBetween(queue, plan, i + 1, hi) && plan[i] == Junction(start, cruise, end)
    modifies queue`junction, queue`settings
    ensures Holds(queue, q)
    ensures PlannedBetween(queue, plan, i, hi)
  {
    queue[i].SetJunction(start, cruise, end);
  }

  method Sweep(queue: seq<Move>, lazy: bool, ghost q: seq<Limits>, ghost t: Trace) returns (flushCount: nat)
    requires Holds(queue, q) && IsTrace(t, q) && (queue != [] ==> t.accel[0])
    requires PlannedBetween(queue, t.plan, 0, 0)
    modifies queue`junction, queue`settings
    ensures Holds(queue, q)
    ensures flushCount == if !lazy then |queue| else if t.lazy[0] > 0 then t.lazy[0] else 0
    ensures PlannedBetween(queue, t.plan, 0, flushCount)
  {
    hide Min, StepAt;
    var updateFlushCount := lazy;
    flushCount := |queue|;
    var delayed: seq<(Move, real, real)> := [];
    var nextEnd, nextSmoothed, peak := 0.0, 0.0, 0.0;
    var i := |queue|;
    ghost var top: nat := |queue|;
    while i > 0
      invariant 0 <= i <= |queue|
      invariant Holds(queue, q)
      invariant nextEnd == t.start[i] && nextSmoothed == t.smoothed[i] && peak == t.peak[i]
      invariant DelayedFrom(queue, t, i, top, delayed)
      invariant if updateFlushCount then lazy && t.lazy[i] == -1 && flushCount == |q|
                else if lazy then flushCount == t.lazy[i] && i <= flushCount else flushCount == |q|
      invariant flushCount <= |q| && (!updateFlushCount ==> top <= flushCount)
      invariant PlannedBetween(queue, t.plan, top, if updateFlushCount then 0 else flushCount)
    {
      i := i - 1;
      TraceStep(t, q, i);
      var move := queue[i];
      var reachableStart := nextEnd + move.delta;
      var start := Min(move.maxStart, reachableStart);
      var reachableSmoothed := nextSmoothed + move.smoothDelta;
      var smoothed := Min(move.maxSmoothed, reachableSmoothed);
      if smoothed < reachableSmoothed {
        if smoothed + move.smoothDelta > nextSmoothed || delayed != [] {
          if updateFlushCount && peak != 0.0 {
            flushCount := i;
            updateFlushCount := false;
          }
          peak := Min(move.maxCruise, (smoothed + reachableSmoothed) * 0.5);
          if delayed != [] {
            if !updateFlushCount && i < flushCount {
              Propagate(queue, q, t, i, top, flushCount, delayed, peak);
            }
            delayed := [];
          }
        }
        if !updateFlushCount && i < flushCount {
          var cruise := Min(Min((start + reachableStart) * 0.5, move.maxCruise), peak);
          PlanOne(queue, q, t.plan, i, flushCount, Min(start, cruise), cruise, Min(nextEnd, cruise));
        }
        top := i;
      } else {
        delayed := delayed + [(move, start, nextEnd)];
      }
      nextEnd := start;
      nextSmoothed := smoothed;
    }
    if updateFlushCount { flushCount := 0; }
  }

  /** The backward pass sets the plan of the moves to be released, each once, and of no others. */
  method PlanBackward(queue: seq<Move>, lazy: bool, ghost q: seq<Limits>)
    returns (flushCount: nat, ghost out: seq<Run.Emitted>)
    requires Holds(queue, q) && (q != [] ==> Accel(q, 0))
    requires forall i :: 0 <= i < |queue| ==> queue[i].settings == 0
    modifies queue`junction, queue`settings
    ensures Holds(queue, q)
    ensures flushCount == Run.FlushCount(q, lazy) && out == Run.Released(q, flushCount)
    ensures forall i :: 0 <= i < flushCount ==> queue[i].junction == out[i].junction && queue[i].settings == 1
    ensures forall i :: flushCount <= i < |queue| ==> queue[i].settings == 0
  {
    hide StepAt, PlanAt, Accel, LazyCount;
    ghost var t := MakeTrace(q);
    flushCount := Sweep(queue, lazy, q, t);
    out := Run.Released(q, flushCount);
  }

  class MoveQueue {
    var queue: seq<Move>
    var junctionFlush: real
    ghost var limits: seq<Limits>        // the limits of the queued moves
    ghost var emitted: seq<Run.Emitted>  // everything handed on, with its plan
    ghost var base: nat

    ghost function Model(): Run.State
      reads this
    {
      Run.State(emitted, base, limits, junctionFlush)
    }

    /** The objects agree with the model. */
    ghost predicate Tied()
      reads this, queue
    {
      && Holds(queue, limits)
      && forall i :: 0 <= i < |queue| ==> queue[i].settings == 0
    }

    ghost predicate Valid()
      reads this, queue
    {
      Tied() && Run.Inv(Model())
    }

    constructor ()
      ensures Valid() && Model() == Run.Initial
    {
      queue, junctionFlush, limits, emitted, base := [], Run.LOOKAHEAD_FLUSH_TIME, [], [], 0;
      new;
      Run.RunKeepsInv([]);
      assert Model() == Run.Run([]);
    }

    /** Takes the first n moves off the queue. */
    method Release(n: nat, ghost out: seq<Run.Emitted>) returns (released: seq<Move>)
      requires n <= |queue| && Holds(queue, limits) && |out| == n
      requires forall i :: n <= i < |queue| ==> queue[i].settings == 0
      modifies this
      ensures Tied() && |released| == n && old(queue) == released + queue
      ensures forall i :: 0 <= i < n ==> released[i] == old(queue)[i]
      ensures emitted == old(emitted) + out
      ensures Model() == Run.State(old(emitted) + out, if n == |old(queue)| then |old(emitted)| + n else old(base),
                                   old(limits)[n..], old(junctionFlush))
    {
      released := queue[..n];
      emitted := emitted + out;
      base := if n == |queue| then |emitted| else base;
      queue, limits := queue[n..], limits[n..];
    }

    /** Plans the queue backwards and hands on the moves whose plan is final. */
    method FlushTied(lazy: bool) returns (released: seq<Move>, ghost out: seq<Run.Emitted>)
      requires Tied() && (limits != [] ==> Accel(limits, 0))
      modifies this, queue`junction, queue`settings
      ensures Tied() && Model() == Run.Flush(old(Model()), lazy)
      ensures old(queue) == released + queue && emitted == old(emitted) + out && |out| == |released|
      ensures forall i :: 0 <= i < |released| ==> released[i].settings == 1 && released[i].junction == out[i].junction
    {
      hide Accel, Run.FlushCount;
      junctionFlush := Run.LOOKAHEAD_FLUSH_TIME;
      var flushCount;
      flushCount, out := PlanBackward(queue, lazy, limits);
      released := Release(flushCount, out);
    }

    /** A flush leaves the model where `LookaheadRun.Flush` takes it, and each released move carries the plan
        recorded for it, set once. */
    method Flush(lazy: bool) returns (released: seq<Move>, ghost out: seq<Run.Emitted>)
      requires Valid()
      modifies this, queue`junction, queue`settings
      ensures Valid() && Model() == Run.Flush(old(Model()), lazy)
      ensures old(queue) == released + queue && emitted == old(emitted) + out && |out| == |released|
      ensures forall i :: 0 <= i < |released| ==> released[i].settings == 1 && released[i].junction == out[i].junction
    {
      ghost var s := Model();
      if lazy { Run.LazyFlushPreserves(s); } else { Run.FullFlushPreserves(s); }
      released, out := FlushTied(lazy);
    }

    /** Appends a move and limits its start speed by the move before it. */
    method Append(move: Move, opposed: bool, cap: real)
      requires Tied() && move !in queue && move.settings == 0
      modifies this, move`maxStart, move`maxSmoothed
      ensures Tied() && queue == old(queue) + [move]
      ensures Model() == Run.Append(old(Model()), Run.NewMove(old(move.Limits()), opposed, cap, move.minMoveT))
    {
      if queue != [] {
        move.CalcJunction(queue[|queue| - 1], opposed, cap);
        junctionFlush := junctionFlush - move.minMoveT;
      }
      queue, limits := queue + [move], limits + [move.Limits()];
    }

    /** Appends a move and flushes lazily when enough moves have gathered.  What the flush releases is the
        front of the queue, each move with the plan recorded for it, set once. */
    method AddMove(move: Move, opposed: bool, cap: real) returns (released: seq<Move>, ghost out: seq<Run.Emitted>)
      requires Valid() && move !in queue && move.settings == 0
      requires Run.Fresh(Run.NewMove(move.Limits(), opposed, cap, move.minMoveT))
      modifies this, queue`junction, queue`settings, move
      ensures Valid()
      ensures Model() == Run.AddMove(old(Model()), Run.NewMove(old(move.Limits()), opposed, cap, old(move.minMoveT)))
      ensures old(queue) + [move] == released + queue && emitted == old(emitted) + out && |out| == |released|
      ensures forall i :: 0 <= i < |released| ==> released[i].settings == 1 && released[i].junction == out[i].junction
    {
      released, out := [], [];
      Run.AppendPreserves(Model(), Run.NewMove(move.Limits(), opposed, cap, move.minMoveT));
      Append(move, opposed, cap);
      if |queue| > 1 && junctionFlush <= 0.0 {
        released, out := Flush(true);
      }
    }
  }
}
