/**
 How fast the plan is.

 The speeds of a plan are not only within the limits: each is the highest that the limits
 allow.  Speeds at junctions are the greatest from which the moves that follow can stop.  The
 cruise speed of an acceleration is the greatest that its peak, the move and the way to brake
 leave; that of a deceleration is the lowest speed met since the peak before it.
 */
module LookaheadBest {
  import opened LookaheadPlan

  // ----- speeds at junctions -----

  /** Squared speeds at the starts of the moves, and zero at the end, that brake no harder than the moves allow. */
  ghost predicate Stops(q: seq<Limits>, b: seq<real>) {
    && |b| == |q| + 1 && b[|q|] == 0.0
    && forall i :: 0 <= i < |q| ==> b[i] <= q[i].maxStart && b[i] <= b[i + 1] + q[i].delta
  }

  /** The same under the gentler acceleration. */
  ghost predicate StopsSmoothly(q: seq<Limits>, b: seq<real>) {
    && |b| == |q| + 1 && b[|q|] == 0.0
    && forall i :: 0 <= i < |q| ==> b[i] <= q[i].maxSmoothed && b[i] <= b[i + 1] + q[i].smoothDelta
  }

  ghost function Starts(q: seq<Limits>): (b: seq<real>)
    ensures |b| == |q| + 1 && forall i :: 0 <= i <= |q| ==> b[i] == Start(q, i)
  {
    seq(|q| + 1, i requires 0 <= i <= |q| => Start(q, i))
  }

  ghost function SmoothedStarts(q: seq<Limits>): (b: seq<real>)
    ensures |b| == |q| + 1 && forall i :: 0 <= i <= |q| ==> b[i] == Smoothed(q, i)
  {
    seq(|q| + 1, i requires 0 <= i <= |q| => Smoothed(q, i))
  }

  /** The planned junction speeds allow a stop, and no others that do are higher anywhere. */
  lemma {:induction false} StartIsGreatest(q: seq<Limits>, b: seq<real>, i: nat)
    requires Stops(q, b) && i <= |q|
    ensures Stops(q, Starts(q)) && b[i] <= Start(q, i)
    decreases |q| - i
  {
    if i < |q| { StartIsGreatest(q, b, i + 1); }
  }

  lemma {:induction false} SmoothedIsGreatest(q: seq<Limits>, b: seq<real>, i: nat)
    requires StopsSmoothly(q, b) && i <= |q|
    ensures StopsSmoothly(q, SmoothedStarts(q)) && b[i] <= Smoothed(q, i)
    decreases |q| - i
  {
    if i < |q| { SmoothedIsGreatest(q, b, i + 1); }
  }

  /** A move can accelerate exactly when it could brake from more than its limit. */
  lemma AccelMeans(q: seq<Limits>, i: nat)
    requires i < |q|
    ensures Accel(q, i) <==> q[i].maxSmoothed < Smoothed(q, i + 1) + q[i].smoothDelta
  {
  }

  // ----- peaks -----

  /** The move uses all its gentle acceleration and the next one can accelerate further. */
  ghost predicate Climbs(q: seq<Limits>, i: nat)
    requires Chain(q) && i < |q|
  {
    i + 1 < |q| && Accel(q, i + 1) && Smoothed(q, i + 1) == Smoothed(q, i) + q[i].smoothDelta
  }

  /**
   The peak of an acceleration is that of the next move while the move climbs.  Otherwise it is
   the greatest speed that is within the cruise limit and from which there is room, at the
   gentle acceleration, to reach the next junction speed.
   */
  lemma PeakIsGreatest(q: seq<Limits>, i: nat, v: real)
    requires Chain(q) && i < |q| && Accel(q, i)
    ensures Climbs(q, i) ==> Peak(q, i) == Peak(q, i + 1)
    ensures !Climbs(q, i) ==>
              (v <= Peak(q, i) <==>
                 v <= q[i].maxCruise && (v - Smoothed(q, i)) + (v - Smoothed(q, i + 1)) <= q[i].smoothDelta)
  {
    RisesSlowly(q, i);
    if i + 1 == |q| { Bounds(q, i); }
  }

  // ----- the speeds of a plan -----

  ghost predicate CapFrom(q: seq<Limits>, i: nat, j: nat)
    requires i < |q| && j <= |q|
  {
    Cap(q, i) == Start(q, j)
  }

  /** The limit handed to a decelerating move is the lowest of the peak before and the junctions since. */
  lemma {:induction false} CapIsLowest(q: seq<Limits>, k: nat, i: nat)
    requires k < i < |q| && Accel(q, k) && forall j :: k < j <= i ==> !Accel(q, j)
    ensures Cap(q, i) <= Peak(q, k) && forall j :: k < j <= i ==> Cap(q, i) <= Start(q, j)
    ensures Cap(q, i) == Peak(q, k) || exists j :: k < j <= i && CapFrom(q, i, j)
    decreases i
  {
    if k + 1 < i {
      CapIsLowest(q, k, i - 1);
      if Cap(q, i) == Cap(q, i - 1) && Cap(q, i) != Peak(q, k) {
        var j :| k < j <= i - 1 && CapFrom(q, i - 1, j);
        assert CapFrom(q, i, j);
      }
    }
    assert Cap(q, i) == Start(q, i) ==> CapFrom(q, i, i);
  }

  /** A move starts and ends at the junction speed, or at its cruise speed if that is lower. */
  lemma PlanMeetsJunctions(q: seq<Limits>, i: nat)
    requires i < |q|
    ensures var p := PlanAt(q, i);
            && p.start == Min(Start(q, i), p.cruise) && p.end == Min(Start(q, i + 1), p.cruise)
            && (!Accel(q, i) ==> p.cruise == Cap(q, i))
  {
  }

  /**
   The cruise speed of an accelerating move is the greatest there is: any higher one is above
   its cruise limit or the peak, or leaves no room to speed up and brake within the move.
   */
  lemma CruiseIsGreatest(q: seq<Limits>, i: nat, c: real)
    requires Chain(q) && i < |q| && Accel(q, i) && PlanAt(q, i).cruise < c
    ensures var p := PlanAt(q, i);
            q[i].maxCruise < c || Peak(q, i) < c || (c - p.start) + (c - p.end) > q[i].delta
  {
    Bounds(q, i);
    Bounds(q, i + 1);
    RisesSlowly(q, i);
  }
}
