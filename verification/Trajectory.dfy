/**
 Feeding released moves to the trapezoid queue.

 `RunIsDriven` ties the planner to the queue: for every run of the look-ahead queue, the
 segments built from the released moves form one trajectory without a gap or jump in time,
 position or speed.
 */
module Trajectory {
  import opened LookaheadPlan
  import opened LookaheadRun
  import opened Trapq

  const MAX_NULL_MOVE := 1.0

  /** The standstill put in front of segment m when the queue ends before m begins. */
  function Filler(moves: seq<Segment>, m: Segment): seq<Segment> {
    var prevTime := if moves == [] then 0.0 else moves[|moves|-1].printTime;
    var prevEnd := if moves == [] then 0.0 else EndTime(moves[|moves|-1]);
    if prevEnd < m.printTime then
      var time := if prevTime == 0.0 && m.printTime > MAX_NULL_MOVE then m.printTime - MAX_NULL_MOVE else prevEnd;
      [Segment(time, m.printTime - time, 0.0, 0.0, m.startPos, Coord(0.0, 0.0, 0.0))]
    else []
  }

  function AddOne(moves: seq<Segment>, m: Segment): seq<Segment> {
    moves + Filler(moves, m) + [m]
  }

  function AddAll(moves: seq<Segment>, segs: seq<Segment>): seq<Segment> {
    if segs == [] then moves else AddOne(AddAll(moves, segs[..|segs|-1]), segs[|segs|-1])
  }

  /** An empty queue starts with a standstill of up to a second before the first segment, from time zero on. */
  lemma FirstStandstill(m: Segment)
    ensures var f := Filler([], m);
            if m.printTime <= 0.0 then f == []
            else
              && |f| == 1 && f[0].printTime == (if m.printTime > 1.0 then m.printTime - 1.0 else 0.0)
              && EndTime(f[0]) == m.printTime && EndPos(f[0]) == m.startPos && EndV(f[0]) == 0.0
  {
  }

  class TrapQueue {
    var moves: seq<Segment>

    constructor ()
      ensures moves == []
    {
      moves := [];
    }

    /** Adds a segment.  A trajectory that can go on where the segment starts, possibly after standing
        still, is extended without a gap up to the end of the segment. */
    method AddMove(m: Segment)
      modifies this
      ensures moves == AddOne(old(moves), m)
      ensures old(moves) < moves && |moves| <= |old(moves)| + 2 && moves[|moves|-1] == m
      ensures Ready(old(moves), StartOf(m)) && 0.0 < m.moveT ==> Ready(moves, EndOf(m))
    {
      if Ready(moves, StartOf(m)) && 0.0 < m.moveT { AddReady(moves, m); }
      var prevTime, prevEnd := 0.0, 0.0;
      if |moves| > 0 {
        prevTime := moves[|moves|-1].printTime;
        prevEnd := prevTime + moves[|moves|-1].moveT;
      }
      if prevEnd < m.printTime {
        var time := prevEnd;
        if prevTime == 0.0 && m.printTime > MAX_NULL_MOVE {
          time := m.printTime - MAX_NULL_MOVE;
        }
        moves := moves + [Segment(time, m.printTime - time, 0.0, 0.0, m.startPos, Coord(0.0, 0.0, 0.0))];
      }
      moves := moves + [m];
    }

    /** Adds one part of a move unless it takes no time; returns the moment and place where it ends. */
    method AddPart(part: Segment) returns (time: real, pos: Coord)
      modifies this
      ensures moves == AddAll(old(moves), Part(part)) && time == EndTime(part) && pos == EndPos(part)
    {
      hide Ready;
      time, pos := part.printTime, part.startPos;
      if part.moveT != 0.0 {
        AddMove(part);
        assert [part][..0] == [];
        time, pos := time + part.moveT, CoordAt(part, part.moveT);
      } else {
        PartPath(part);
      }
    }

    /** Adds the accelerating, cruising and decelerating part of a move; parts that take no time are left out. */
    method Append(printTime: real, t: Profile, startPos: Coord, axesR: Coord, startV: real, cruiseV: real, accel: real)
      modifies this
      ensures moves == AddAll(old(moves), Segments(printTime, t, startPos, axesR, startV, cruiseV, accel))
    {
      hide AddAll, Part, EndTime, EndPos;
      var a := Segment(printTime, t.accelT, startV, 0.5 * accel, startPos, axesR);
      var time, pos := AddPart(a);
      var c := Segment(time, t.cruiseT, cruiseV, 0.0, pos, axesR);
      time, pos := AddPart(c);
      var d := Segment(time, t.decelT, cruiseV, 0.5 * -accel, pos, axesR);
      time, pos := AddPart(d);
      AddAllMore(old(moves), Part(a), Part(c));
      AddAllMore(old(moves), Part(a) + Part(c), Part(d));
    }
  }

  lemma {:induction false} AddAllMore(moves: seq<Segment>, a: seq<Segment>, b: seq<Segment>)
    ensures AddAll(moves, a + b) == AddAll(AddAll(moves, a), b)
  {
    hide AddOne;
    if b == [] {
      assert a + b == a;
    } else {
      var n := |b| - 1;
      AddAllMore(moves, a, b[..n]);
      assert (a + b)[..|a| + n] == a + b[..n];
    }
  }

  // ----- a list of moves -----

  /** A released move with its geometry and the roots of its squared speeds. */
  datatype Drive = Drive(limits: Limits, junction: Junction, speeds: Speeds, startPos: Coord, axesR: Coord)

  ghost predicate Drivable(d: Drive) {
    WellFormed(d.limits) && Feasible(d.limits, d.junction) && Roots(d.junction, d.speeds)
  }

  function EndPosOf(d: Drive): Coord {
    if d.limits.kinematic then Along(d.startPos, d.axesR, d.limits.moveD) else d.startPos
  }

  function Times(d: Drive): Profile
    requires Drivable(d)
  {
    CruisePositive(d.junction, d.speeds);
    TimesOf(d.limits, d.junction, d.speeds)
  }

  ghost predicate Linked(ds: seq<Drive>) {
    && (forall i :: 0 <= i < |ds| ==> Drivable(ds[i]))
    && (forall i :: 0 < i < |ds| ==> ds[i-1].speeds.end == ds[i].speeds.start && EndPosOf(ds[i-1]) == ds[i].startPos)
  }

  function Clock(ds: seq<Drive>, time: real): real
    requires forall i :: 0 <= i < |ds| ==> Drivable(ds[i])
  {
    if ds == [] then time else Clock(ds[..|ds|-1], time) + Total(Times(ds[|ds|-1]))
  }

  /** The trapezoid queue after the moves have been handed to it from the given time on. */
  function Process(moves: seq<Segment>, ds: seq<Drive>, time: real): seq<Segment>
    requires forall i :: 0 <= i < |ds| ==> Drivable(ds[i])
  {
    if ds == [] then moves
    else
      var n := |ds| - 1;
      var d := ds[n];
      var before := Process(moves, ds[..n], time);
      if d.limits.kinematic then
        AddAll(before, Segments(Clock(ds[..n], time), Times(d), d.startPos, d.axesR,
                                d.speeds.start, d.speeds.cruise, d.limits.accel))
      else before
  }

  method ProcessMoves(tq: TrapQueue, ds: seq<Drive>, printTime: real) returns (nextMoveTime: real)
    requires forall i :: 0 <= i < |ds| ==> Drivable(ds[i])
    modifies tq
    ensures tq.moves == Process(old(tq.moves), ds, printTime)
    ensures nextMoveTime == Clock(ds, printTime)
  {
    nextMoveTime := printTime;
    assert ds[..0] == [];
    for i := 0 to |ds|
      invariant tq.moves == Process(old(tq.moves), ds[..i], printTime)
      invariant nextMoveTime == Clock(ds[..i], printTime)
    {
      var d := ds[i];
      assert ds[..i+1][..i] == ds[..i];
      var t := Times(d);
      if d.limits.kinematic {
        tq.Append(nextMoveTime, t, d.startPos, d.axesR, d.speeds.start, d.speeds.cruise, d.limits.accel);
      }
      nextMoveTime := nextMoveTime + t.accelT + t.cruiseT + t.decelT;
    }
    assert ds[..|ds|] == ds;
  }

  // ----- the trajectory -----

  /** The queue is contiguous and the trajectory can go on from moment `tip`: either the queue ends
      exactly there, or it stands still from its end on. */
  ghost predicate Ready(moves: seq<Segment>, tip: Tip) {
    && Contiguous(moves) && 0.0 < tip.time
    && if moves == [] then tip.v == 0.0
       else
         var last := moves[|moves|-1];
         && 0.0 < last.printTime && EndPos(last) == tip.pos
         && (if EndTime(last) == tip.time then EndV(last) == tip.v
             else EndTime(last) < tip.time && EndV(last) == tip.v == 0.0)
  }

  lemma StandsStill(time: real, t: real, pos: Coord)
    ensures var n := Segment(time, t, 0.0, 0.0, pos, Coord(0.0, 0.0, 0.0)); EndPos(n) == pos && EndV(n) == 0.0
  {
  }

  lemma AddReady(moves: seq<Segment>, m: Segment)
    requires Ready(moves, StartOf(m)) && 0.0 < m.moveT
    ensures Ready(AddOne(moves, m), EndOf(m))
    ensures EndOf(AddOne(moves, m)[|AddOne(moves, m)|-1]) == EndOf(m)
  {
    var f := Filler(moves, m);
    if f != [] {
      StandsStill(f[0].printTime, f[0].moveT, m.startPos);
    }
  }

  lemma {:induction false} AddAllReady(moves: seq<Segment>, segs: seq<Segment>, a: Tip, b: Tip)
    requires Ready(moves, a) && Path(segs, a, b)
    requires forall i :: 0 <= i < |segs| ==> 0.0 < segs[i].moveT
    ensures Ready(AddAll(moves, segs), b)
    ensures a.time <= b.time
  {
    if segs != [] {
      var n := |segs| - 1;
      var m := segs[n];
      if n == 0 {
        assert segs[..n] == [];
      } else {
        assert Meets(segs[n-1], m);
        forall i | 0 < i < n ensures Meets(segs[..n][i-1], segs[..n][i]) { assert Meets(segs[i-1], segs[i]); }
        AddAllReady(moves, segs[..n], a, StartOf(m));
      }
      AddReady(AddAll(moves, segs[..n]), m);
    }
  }

  /** A trajectory that is at rest can also go on later. */
  lemma ReadyLater(moves: seq<Segment>, tip: Tip, time: real)
    requires Ready(moves, tip) && tip.v == 0.0 && tip.time <= time
    ensures Ready(moves, tip.(time := time))
  {
  }

  lemma SegmentsTakeTime(time: real, t: Profile, pos: Coord, axesR: Coord, startV: real, cruiseV: real, accel: real)
    requires 0.0 <= t.accelT && 0.0 <= t.cruiseT && 0.0 <= t.decelT
    ensures var s := Segments(time, t, pos, axesR, startV, cruiseV, accel);
            forall i :: 0 <= i < |s| ==> 0.0 < s[i].moveT
  {
  }

  /** The last move of a list continues the trajectory. */
  lemma DriveOne(moves: seq<Segment>, d: Drive, time: real)
    requires Drivable(d) && Ready(moves, Tip(time, d.startPos, d.speeds.start))
    ensures var t := Times(d);
            var after := if d.limits.kinematic
              then AddAll(moves, Segments(time, t, d.startPos, d.axesR,
                   d.speeds.start, d.speeds.cruise, d.limits.accel))
              else moves;
            Ready(after, Tip(time + Total(t), EndPosOf(d), d.speeds.end))
  {
    hide Ready, AddAll, Segments, Path, Along, TimesOf;
    CruisePositive(d.junction, d.speeds);
    MoveDriven(d.limits, d.junction, d.speeds, time, d.startPos, d.axesR);
    var t := Times(d);
    if d.limits.kinematic {
      SegmentsTakeTime(time, t, d.startPos, d.axesR, d.speeds.start, d.speeds.cruise, d.limits.accel);
      AddAllReady(moves, Segments(time, t, d.startPos, d.axesR, d.speeds.start, d.speeds.cruise, d.limits.accel),
                  Tip(time, d.startPos, d.speeds.start), Tip(time + Total(t), EndPosOf(d), d.speeds.end));
    } else {
      Root0(d.speeds.start);
      Root0(d.speeds.end);
      ReadyLater(moves, Tip(time, d.startPos, 0.0), time + Total(t));
    }
  }

  lemma Root0(v: real)
    requires 0.0 <= v && v * v == 0.0
    ensures v == 0.0
  {
    RootUnique(v, 0.0);
  }

  lemma MulPositive(x: real, y: real)
    requires 0.0 < x && 0.0 < y
    ensures 0.0 < x * y
  {
  }

  /** A linked list of moves extends a trajectory to the end of its last move. */
  lemma {:induction false} ProcessReady(moves: seq<Segment>, ds: seq<Drive>, time: real)
    requires Linked(ds) && ds != [] && Ready(moves, Tip(time, ds[0].startPos, ds[0].speeds.start))
    ensures Ready(Process(moves, ds, time), Tip(Clock(ds, time), EndPosOf(ds[|ds|-1]), ds[|ds|-1].speeds.end))
  {
    var n := |ds| - 1;
    if n == 0 {
      assert ds[..n] == [];
    } else {
      ProcessReady(moves, ds[..n], time);
    }
    DriveOne(Process(moves, ds[..n], time), ds[n], Clock(ds[..n], time));
  }

  lemma RootUnique(a: real, b: real)
    requires 0.0 <= a && 0.0 <= b && a * a == b * b
    ensures a == b
  {
    if a < b { MulPositive(b - a, b + a); }
    if b < a { MulPositive(a - b, a + b); }
    assert (b - a) * (b + a) == b * b - a * a == 0.0;
    assert (a - b) * (a + b) == a * a - b * b == 0.0;
  }

  /** The drives are the released moves, with geometry that connects and with roots. */
  ghost predicate DrivesOf(out: seq<Emitted>, ds: seq<Drive>) {
    && |ds| == |out|
    && (forall i :: 0 <= i < |ds| ==> ds[i].limits == out[i].limits && ds[i].junction == out[i].junction
                                      && Roots(ds[i].junction, ds[i].speeds))
    && (forall i :: 0 < i < |ds| ==> EndPosOf(ds[i-1]) == ds[i].startPos)
  }

  lemma MeetingSpeedsLink(out: seq<Emitted>, ds: seq<Drive>)
    requires SpeedsMeet(out) && DrivesOf(out, ds)
    ensures Linked(ds)
    ensures ds != [] ==> ds[0].speeds.start == 0.0
  {
    forall i | 0 < i < |ds| ensures ds[i-1].speeds.end == ds[i].speeds.start {
      assert out[i-1].junction.end == out[i].junction.start;
      RootUnique(ds[i-1].speeds.end, ds[i].speeds.start);
    }
    if ds != [] { Root0(ds[0].speeds.start); }
  }

  // ----- one list of moves after the other -----

  /** A list of released moves and the print time at which the first of them starts. */
  datatype Handover = Handover(ds: seq<Drive>, time: real)

  function Drives(hs: seq<Handover>): seq<Drive> {
    if hs == [] then [] else Drives(hs[..|hs|-1]) + hs[|hs|-1].ds
  }

  ghost predicate Complete(h: Handover) {
    h.ds != [] && forall i :: 0 <= i < |h.ds| ==> Drivable(h.ds[i])
  }

  /** The moment at which the last move of a list ends. */
  ghost function Finish(h: Handover): Tip
    requires Complete(h)
  {
    var d := h.ds[|h.ds|-1];
    Tip(Clock(h.ds, h.time), EndPosOf(d), d.speeds.end)
  }

  /** The trapezoid queue after all lists have been handed to it. */
  ghost function Driven(hs: seq<Handover>): seq<Segment>
    requires forall i :: 0 <= i < |hs| ==> Complete(hs[i])
  {
    if hs == [] then []
    else
      var h := hs[|hs|-1];
      assert Complete(h);
      Process(Driven(hs[..|hs|-1]), h.ds, h.time)
  }

  /** List i starts when the list before it ends, or later if that one ended at rest. */
  ghost predicate StartsAfter(a: Handover, b: Handover)
    requires Complete(a)
  {
    b.time == Finish(a).time || (Finish(a).time < b.time && Finish(a).v == 0.0)
  }

  ghost predicate Scheduled(hs: seq<Handover>) {
    && (forall i :: 0 <= i < |hs| ==> Complete(hs[i]))
    && (hs != [] ==> 0.0 < hs[0].time && hs[0].ds[0].speeds.start == 0.0)
    && (forall i :: 0 < i < |hs| ==> StartsAfter(hs[i-1], hs[i]))
  }

  lemma LinkedParts(a: seq<Drive>, b: seq<Drive>)
    requires Linked(a + b)
    ensures Linked(a) && Linked(b)
    ensures a != [] && b != [] ==>
              a[|a|-1].speeds.end == b[0].speeds.start && EndPosOf(a[|a|-1]) == b[0].startPos
  {
    var c := a + b;
    forall i | 0 <= i < |a| ensures Drivable(a[i]) { assert c[i] == a[i]; }
    forall i | 0 < i < |a| ensures a[i-1].speeds.end == a[i].speeds.start && EndPosOf(a[i-1]) == a[i].startPos {
      assert c[i-1] == a[i-1] && c[i] == a[i];
    }
    forall i | 0 <= i < |b| ensures Drivable(b[i]) { assert c[|a| + i] == b[i]; }
    forall i | 0 < i < |b| ensures b[i-1].speeds.end == b[i].speeds.start && EndPosOf(b[i-1]) == b[i].startPos {
      assert c[|a| + i - 1] == b[i-1] && c[|a| + i] == b[i];
    }
    if a != [] && b != [] { assert c[|a|-1] == a[|a|-1] && c[|a|] == b[0]; }
  }

  lemma DrivesEnd(hs: seq<Handover>)
    requires hs != [] && hs[|hs|-1].ds != []
    ensures Drives(hs) != [] && Drives(hs)[|Drives(hs)|-1] == hs[|hs|-1].ds[|hs[|hs|-1].ds|-1]
  {
  }

  lemma {:induction false} DrivenReady(hs: seq<Handover>)
    requires Scheduled(hs) && hs != [] && Linked(Drives(hs))
    ensures Ready(Driven(hs), Finish(hs[|hs|-1]))
  {
    hide Ready, Process, Linked, Clock, EndPosOf, Drivable;
    var n := |hs| - 1;
    var h := hs[n];
    assert Complete(h);
    LinkedParts(Drives(hs[..n]), h.ds);
    var first := Tip(h.time, h.ds[0].startPos, h.ds[0].speeds.start);
    if n == 0 {
      StartReady(first);
    } else {
      var g := hs[n-1];
      assert hs[..n][n-1] == g && StartsAfter(g, h);
      DrivenReady(hs[..n]);
      DrivesEnd(hs[..n]);
      if Finish(g).time < h.time { ReadyLater(Driven(hs[..n]), Finish(g), h.time); }
    }
    ProcessReady(Driven(hs[..n]), h.ds, h.time);
  }

  lemma StartReady(tip: Tip)
    requires 0.0 < tip.time && tip.v == 0.0
    ensures Ready([], tip)
  {
  }

  // ----- the planner's runs -----

  /** At some point of the run the queue was empty and exactly n moves had been released. */
  ghost predicate EmptiedAt(es: seq<Event>, n: nat) {
    exists k: nat :: k <= |es| && Run(es[..k]).queue == [] && |Run(es[..k]).emitted| == n
  }

  /** The print time of a list of moves is where the last one ended; it may have moved on only if the
      queue had been empty in between. */
  ghost predicate Resynced(es: seq<Event>, hs: seq<Handover>) {
    && (forall i :: 0 <= i < |hs| ==> Complete(hs[i]))
    && (hs != [] ==> 0.0 < hs[0].time)
    && (forall i :: 0 < i < |hs| ==>
          && Finish(hs[i-1]).time <= hs[i].time
          && (Finish(hs[i-1]).time < hs[i].time ==> EmptiedAt(es, |Drives(hs[..i])|)))
  }

  lemma StepExtends(s: State, e: Event)
    ensures s.emitted <= Step(s, e).emitted
  {
  }

  lemma {:induction false} RunExtends(es: seq<Event>, k: nat)
    requires k <= |es|
    ensures Run(es[..k]).emitted <= Run(es).emitted
  {
    if k < |es| {
      var n := |es| - 1;
      RunExtends(es[..n], k);
      assert es[..n][..k] == es[..k];
      StepExtends(Run(es[..n]), es[n]);
    } else {
      assert es[..k] == es;
    }
  }

  /** When the queue was empty after n moves, the last of them ends at rest. */
  lemma EmptiedAtRest(es: seq<Event>, n: nat)
    requires Admissible(es) && EmptiedAt(es, n) && 0 < n
    ensures n <= |Run(es).emitted| && Run(es).emitted[n-1].junction.end == 0.0
  {
    var k: nat :| k <= |es| && Run(es[..k]).queue == [] && |Run(es[..k]).emitted| == n;
    RunExtends(es, k);
    ReleasedSpeedsMeet(es[..k]);
    assert Run(es[..k]).emitted[n-1] == Run(es).emitted[n-1];
  }

  lemma {:induction false} DrivesPrefix(hs: seq<Handover>, i: nat)
    requires i <= |hs|
    ensures Drives(hs[..i]) <= Drives(hs)
  {
    if i < |hs| {
      DrivesPrefix(hs[..|hs|-1], i);
      assert hs[..|hs|-1][..i] == hs[..i];
    } else {
      assert hs[..i] == hs;
    }
  }

  lemma RestAt(out: seq<Emitted>, ds: seq<Drive>, n: nat)
    requires DrivesOf(out, ds) && 0 < n <= |ds| && out[n-1].junction.end == 0.0
    ensures ds[n-1].speeds.end == 0.0
  {
    Root0(ds[n-1].speeds.end);
  }

  lemma AtRestEnd(out: seq<Emitted>, ds: seq<Drive>)
    requires DrivesOf(out, ds) && AtRest(out) && ds != []
    ensures ds[|ds|-1].speeds.end == 0.0
  {
    hide Roots;
    RestAt(out, ds, |ds|);
  }

  /** A list that starts late follows a move that ends at rest. */
  lemma JumpsAtRest(es: seq<Event>, hs: seq<Handover>, i: nat)
    requires Admissible(es) && DrivesOf(Run(es).emitted, Drives(hs)) && Resynced(es, hs) && 0 < i < |hs|
    ensures StartsAfter(hs[i-1], hs[i])
  {
    hide Run, Drives, Process, Clock, DrivesOf, Roots, Drivable, EndPosOf, Admissible, EmptiedAt;
    if Finish(hs[i-1]).time < hs[i].time {
      assert Complete(hs[i-1]) && hs[..i][i-1] == hs[i-1];
      DrivesEnd(hs[..i]);
      DrivesPrefix(hs, i);
      var n := |Drives(hs[..i])|;
      EmptiedAtRest(es, n);
      assert Drives(hs)[n-1] == Drives(hs[..i])[n-1];
      RestAt(Run(es).emitted, Drives(hs), n);
    }
  }

  lemma DrivesStart(hs: seq<Handover>)
    requires hs != [] && hs[0].ds != []
    ensures Drives(hs) != [] && Drives(hs)[0] == hs[0].ds[0]
  {
    DrivesPrefix(hs, 1);
    assert hs[..1][..0] == [] && hs[..1] == [hs[0]];
    assert Drives([hs[0]]) == hs[0].ds;
  }

  /** Every run of the look-ahead queue is driven as one contiguous trajectory that starts at rest,
      however the released moves are handed over and wherever the print time moves on while the queue
      is empty; when everything has been released it also ends at rest. */
  lemma RunIsDriven(es: seq<Event>, hs: seq<Handover>)
    requires Admissible(es) && hs != [] && DrivesOf(Run(es).emitted, Drives(hs)) && Resynced(es, hs)
    ensures Linked(Drives(hs))
    ensures Ready(Driven(hs), Finish(hs[|hs|-1]))
    ensures Run(es).queue == [] ==> Finish(hs[|hs|-1]).v == 0.0
  {
    hide Run, Drives, Process, Clock, Ready, Driven, DrivesOf, SpeedsMeet, AtRest, Linked, Roots, Drivable, EndPosOf;
    hide Admissible, EmptiedAt;
    ReleasedSpeedsMeet(es);
    MeetingSpeedsLink(Run(es).emitted, Drives(hs));
    DrivesStart(hs);
    forall i | 0 < i < |hs| ensures StartsAfter(hs[i-1], hs[i]) { JumpsAtRest(es, hs, i); }
    DrivenReady(hs);
    DrivesEnd(hs);
    if Run(es).queue == [] { AtRestEnd(Run(es).emitted, Drives(hs)); }
  }
}
