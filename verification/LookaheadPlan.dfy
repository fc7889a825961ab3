/**
 The look-ahead plan of a queue of moves, as a function of the queue.

 A move carries limits on squared speeds.  The plan of a move is the squared speed at
 its start, while cruising and at its end.  Everything is stated over exact reals.

 The functions below give the plan of move `i` of a queue `q` declaratively: `Start` and
 `Smoothed` look at the moves after `i`, `Peak` is the cruise limit of the acceleration
 the move belongs to, and `Cap` is the limit handed to the moves of a deceleration.
 */
module LookaheadPlan {

  function Min(a: real, b: real): real {
    if a <= b then a else b
  }

  /** The speed limits of a move once it sits on the queue. */
  datatype Limits = Limits(
    kinematic: bool, moveD: real, accel: real,
    maxStart: real, maxCruise: real, delta: real,
    maxSmoothed: real, smoothDelta: real)

  /** Squared speeds chosen for a move. */
  datatype Junction = Junction(start: real, cruise: real, end: real)

  ghost predicate WellFormed(m: Limits) {
    && 0.0 < m.moveD && 0.0 < m.accel && m.delta == 2.0 * m.moveD * m.accel
    && 0.0 < m.smoothDelta <= m.delta
    && 0.0 < m.maxCruise
    && 0.0 <= m.maxSmoothed <= m.maxStart <= m.maxCruise
    && (!m.kinematic ==> m.maxStart == 0.0)
  }

  /** What calc_junction establishes between two neighbours of the queue. */
  ghost predicate Joined(prev: Limits, m: Limits) {
    && m.maxStart <= prev.maxCruise
    && m.maxStart <= prev.maxStart + prev.delta
    && m.maxSmoothed == Min(m.maxStart, prev.maxSmoothed + prev.smoothDelta)
    && (!(m.kinematic && prev.kinematic) ==> m.maxStart == 0.0)
  }

  ghost predicate Chain(q: seq<Limits>) {
    && (forall i :: 0 <= i < |q| ==> WellFormed(q[i]))
    && (forall i :: 0 < i < |q| ==> Joined(q[i-1], q[i]))
  }

  // ----- the plan -----

  /** Fastest squared speed at the start of move i that still allows a stop after the last move. */
  function Start(q: seq<Limits>, i: nat): real
    requires i <= |q|
    decreases |q| - i
  {
    if i == |q| then 0.0 else Min(q[i].maxStart, Start(q, i + 1) + q[i].delta)
  }

  /** The same under the gentler acceleration used for smoothing. */
  function Smoothed(q: seq<Limits>, i: nat): real
    requires i <= |q|
    decreases |q| - i
  {
    if i == |q| then 0.0 else Min(q[i].maxSmoothed, Smoothed(q, i + 1) + q[i].smoothDelta)
  }

  /** Move i can accelerate; a move that cannot only decelerates and is delayed. */
  predicate Accel(q: seq<Limits>, i: nat)
    requires i < |q|
  {
    Smoothed(q, i) < Smoothed(q, i + 1) + q[i].smoothDelta
  }

  /** Move i is the last one, in queue order, of an acceleration. */
  predicate NewPeak(q: seq<Limits>, i: nat)
    requires i < |q|
  {
    && Accel(q, i)
    && (|| Smoothed(q, i) + q[i].smoothDelta > Smoothed(q, i + 1)
        || (i + 1 < |q| && !Accel(q, i + 1)))
  }

  /** Cruise limit of the acceleration in progress at move i (zero when none is known yet). */
  function Peak(q: seq<Limits>, i: nat): real
    requires i <= |q|
    decreases |q| - i
  {
    if i == |q| then 0.0
    else if NewPeak(q, i) then Min(q[i].maxCruise, (Smoothed(q, i) + Smoothed(q, i + 1) + q[i].smoothDelta) * 0.5)
    else Peak(q, i + 1)
  }

  /** Cruise limit handed to the decelerating move i by the moves before it. */
  function Cap(q: seq<Limits>, i: nat): real
    requires i < |q|
  {
    if i == 0 then Start(q, i)
    else if Accel(q, i - 1) then Min(Peak(q, i - 1), Start(q, i))
    else Min(Cap(q, i - 1), Start(q, i))
  }

  function Cruise(q: seq<Limits>, i: nat): real
    requires i < |q|
  {
    if Accel(q, i) then
      Min(Min((Start(q, i) + Start(q, i + 1) + q[i].delta) * 0.5, q[i].maxCruise), Peak(q, i))
    else Cap(q, i)
  }

  function PlanAt(q: seq<Limits>, i: nat): Junction
    requires i < |q|
  {
    var c := Cruise(q, i);
    Junction(Min(Start(q, i), c), c, Min(Start(q, i + 1), c))
  }

  function Plan(q: seq<Limits>): seq<Junction> {
    seq(|q|, i requires 0 <= i < |q| => PlanAt(q, i))
  }

  // ----- elementary facts -----

  lemma {:induction false} Bounds(q: seq<Limits>, i: nat)
    requires Chain(q) && i <= |q|
    ensures 0.0 <= Smoothed(q, i) <= Start(q, i)
    ensures i < |q| ==> Smoothed(q, i) <= q[i].maxSmoothed && Start(q, i) <= q[i].maxStart
    decreases |q| - i
  {
    if i < |q| { Bounds(q, i + 1); }
  }

  /** Neither speed can rise by more over a move than the move allows. */
  lemma RisesSlowly(q: seq<Limits>, i: nat)
    requires Chain(q) && i < |q|
    ensures Start(q, i + 1) <= Start(q, i) + q[i].delta
    ensures Smoothed(q, i + 1) <= Smoothed(q, i) + q[i].smoothDelta
    ensures i + 1 < |q| ==> Start(q, i + 1) <= q[i].maxCruise
  {
    Bounds(q, i);
    Bounds(q, i + 1);
    if i + 1 < |q| { assert Joined(q[i], q[i+1]); }
  }

  lemma {:induction false} PeakAbove(q: seq<Limits>, i: nat)
    requires Chain(q) && i < |q| && Accel(q, i)
    ensures 0.0 < Peak(q, i) && Smoothed(q, i) <= Peak(q, i)
    decreases |q| - i
  {
    Bounds(q, i);
    Bounds(q, i + 1);
    RisesSlowly(q, i);
    if !NewPeak(q, i) {
      PeakAbove(q, i + 1);
    }
  }

  /** A new peak is at least the speed at which its move ends. */
  lemma NewPeakAboveEnd(q: seq<Limits>, i: nat)
    requires Chain(q) && i < |q| && NewPeak(q, i)
    ensures Smoothed(q, i + 1) <= Peak(q, i)
    ensures 0.0 < Peak(q, i)
    ensures Peak(q, i) <= Smoothed(q, i + 1) + q[i].smoothDelta
  {
    Bounds(q, i);
    Bounds(q, i + 1);
    RisesSlowly(q, i);
  }

  /** Where smoothing is not limited by the move before, it meets the junction limit itself. */
  lemma Pinned(q: seq<Limits>, i: nat)
    requires Chain(q) && 0 < i < |q| && Accel(q, i)
    requires Smoothed(q, i) < q[i-1].maxSmoothed + q[i-1].smoothDelta
    ensures Smoothed(q, i) == Start(q, i) == q[i].maxStart
  {
    Bounds(q, i);
    assert Joined(q[i-1], q[i]);
  }

  lemma {:induction false} CapBounds(q: seq<Limits>, i: nat)
    requires Chain(q) && i < |q| && !Accel(q, i) && Accel(q, 0)
    ensures Smoothed(q, i) <= Cap(q, i) <= Start(q, i)
    ensures 0.0 < Cap(q, i)
  {
    Bounds(q, i);
    Bounds(q, i + 1);
    if Accel(q, i - 1) {
      NewPeakAboveEnd(q, i - 1);
    } else {
      Bounds(q, i - 1);
      CapBounds(q, i - 1);
    }
  }

  // ----- continuity and feasibility of a whole plan -----

  /** A move starts at the speed its predecessor ended with. */
  lemma Continuity(q: seq<Limits>, i: nat)
    requires Chain(q) && i + 1 < |q| && Accel(q, 0)
    ensures PlanAt(q, i).end == PlanAt(q, i + 1).start
  {
    if Accel(q, i) {
      if Accel(q, i + 1) { BothAccelerate(q, i); } else { OnlyFirstAccelerates(q, i); }
    } else {
      if Accel(q, i + 1) { OnlySecondAccelerates(q, i); } else { NoneAccelerates(q, i); }
    }
  }

  lemma BothAccelerate(q: seq<Limits>, i: nat)
    requires Chain(q) && i + 1 < |q| && Accel(q, i) && Accel(q, i + 1)
    ensures PlanAt(q, i).end == PlanAt(q, i + 1).start
  {
    Bounds(q, i); Bounds(q, i + 1); Bounds(q, i + 2);
    RisesSlowly(q, i);
    if NewPeak(q, i) {
      Pinned(q, i + 1);
      NewPeakAboveEnd(q, i);
      PeakAbove(q, i + 1);
    }
  }

  lemma OnlyFirstAccelerates(q: seq<Limits>, i: nat)
    requires Chain(q) && i + 1 < |q| && Accel(q, 0) && Accel(q, i) && !Accel(q, i + 1)
    ensures PlanAt(q, i).end == PlanAt(q, i + 1).start
  {
    Bounds(q, i); Bounds(q, i + 1); Bounds(q, i + 2);
    RisesSlowly(q, i);
  }

  lemma OnlySecondAccelerates(q: seq<Limits>, i: nat)
    requires Chain(q) && i + 1 < |q| && Accel(q, 0) && !Accel(q, i) && Accel(q, i + 1)
    ensures PlanAt(q, i).end == PlanAt(q, i + 1).start
  {
    Bounds(q, i); Bounds(q, i + 1); Bounds(q, i + 2);
    CapBounds(q, i);
    Pinned(q, i + 1);
    PeakAbove(q, i + 1);
  }

  lemma NoneAccelerates(q: seq<Limits>, i: nat)
    requires Chain(q) && i + 1 < |q| && Accel(q, 0) && !Accel(q, i) && !Accel(q, i + 1)
    ensures PlanAt(q, i).end == PlanAt(q, i + 1).start
  {
    Bounds(q, i); Bounds(q, i + 1); Bounds(q, i + 2);
    CapBounds(q, i);
  }

  ghost predicate Feasible(m: Limits, p: Junction) {
    && 0.0 <= p.start <= p.cruise <= m.maxCruise && 0.0 <= p.end <= p.cruise
    && p.start <= m.maxStart && 0.0 < p.cruise
    && (p.cruise - p.start) + (p.cruise - p.end) <= m.delta
    && (!m.kinematic ==> p.start == p.end == 0.0)
  }

  lemma PlanFeasible(q: seq<Limits>, i: nat)
    requires Chain(q) && i < |q| && Accel(q, 0)
    ensures Feasible(q[i], PlanAt(q, i))
  {
    Bounds(q, i); Bounds(q, i + 1);
    RisesSlowly(q, i);
    if i + 1 < |q| { assert Joined(q[i], q[i+1]); }
    if Accel(q, i) { PeakAbove(q, i); } else { CapBounds(q, i); }
  }
}
