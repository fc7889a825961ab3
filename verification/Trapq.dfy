/**
 The trapezoid queue: every released move becomes up to three segments of constant
 acceleration.  A planned run of moves turns into a trajectory without gaps or jumps in
 time, position or speed.

 Square roots are given by their defining property: a speed is a non-negative number whose
 square is the planned squared speed.
 */
module Trapq {
  import opened LookaheadPlan

  datatype Coord = Coord(x: real, y: real, z: real)

  function Along(p: Coord, r: Coord, d: real): Coord {
    Coord(p.x + r.x * d, p.y + r.y * d, p.z + r.z * d)
  }

  datatype Segment = Segment(printTime: real, moveT: real, startV: real, halfAccel: real, startPos: Coord, axesR: Coord)

  /** Distance covered after time t. */
  function Distance(s: Segment, t: real): real {
    (s.startV + s.halfAccel * t) * t
  }

  function CoordAt(s: Segment, t: real): Coord {
    Along(s.startPos, s.axesR, Distance(s, t))
  }

  function SpeedAt(s: Segment, t: real): real {
    s.startV + 2.0 * s.halfAccel * t
  }

  function EndTime(s: Segment): real { s.printTime + s.moveT }
  function EndPos(s: Segment): Coord { CoordAt(s, s.moveT) }
  function EndV(s: Segment): real { SpeedAt(s, s.moveT) }

  // ----- time spent in the parts of a move -----

  datatype Speeds = Speeds(start: real, cruise: real, end: real)

  datatype Profile = Profile(accelT: real, cruiseT: real, decelT: real)

  ghost predicate Roots(p: Junction, v: Speeds) {
    && 0.0 <= v.start && v.start * v.start == p.start
    && 0.0 <= v.cruise && v.cruise * v.cruise == p.cruise
    && 0.0 <= v.end && v.end * v.end == p.end
  }

  /** Distance over average speed. */
  function RampTime(d: real, lo: real, hi: real): real
    requires lo + hi > 0.0
  {
    d / ((lo + hi) * 0.5)
  }

  function AccelD(m: Limits, p: Junction): real
    requires m.accel != 0.0
  {
    (p.cruise - p.start) * (0.5 / m.accel)
  }

  function DecelD(m: Limits, p: Junction): real
    requires m.accel != 0.0
  {
    (p.cruise - p.end) * (0.5 / m.accel)
  }

  function CruiseD(m: Limits, p: Junction): real
    requires m.accel != 0.0
  {
    m.moveD - AccelD(m, p) - DecelD(m, p)
  }

  /** The times set_junction derives from the squared speeds. */
  function TimesOf(m: Limits, p: Junction, v: Speeds): Profile
    requires m.accel != 0.0 && v.cruise > 0.0 && v.start >= 0.0 && v.end >= 0.0
  {
    Profile(RampTime(AccelD(m, p), v.start, v.cruise), CruiseD(m, p) / v.cruise,
            RampTime(DecelD(m, p), v.end, v.cruise))
  }

  lemma CruisePositive(p: Junction, v: Speeds)
    requires Roots(p, v) && 0.0 < p.cruise
    ensures 0.0 < v.cruise
  {
  }

  /** Changing speed from `lo` to `hi` at acceleration `a` over distance d takes time d / average. */
  lemma RampShape(lo: real, hi: real, lo2: real, hi2: real, a: real, h: real, d: real, t: real)
    requires 0.0 <= lo && 0.0 < hi && 0.0 < a && h == 0.5 / a
    requires lo * lo == lo2 && hi * hi == hi2 && d == (hi2 - lo2) * h
    requires t == RampTime(d, lo, hi)
    ensures a * t == hi - lo
    ensures (lo + 0.5 * a * t) * t == d == (hi - 0.5 * a * t) * t
  {
    var s := lo + hi;
    DivMul(d, s * 0.5);
    assert t * (s * 0.5) == d;
    assert 2.0 * a * h == 1.0;
    assert 2.0 * a * d == (hi2 - lo2) * (2.0 * a * h);
    assert (a * t) * s == 2.0 * a * (t * (s * 0.5)) == hi2 - lo2 == (hi - lo) * s;
    Cancel(a * t, hi - lo, s);
    calc { (lo + 0.5 * a * t) * t; (lo + 0.5 * (hi - lo)) * t; t * (s * 0.5); }
    calc { (hi - 0.5 * a * t) * t; (hi - 0.5 * (hi - lo)) * t; t * (s * 0.5); }
  }

  lemma DivMul(x: real, y: real)
    requires y != 0.0
    ensures (x / y) * y == x == y * (x / y)
  {
  }

  lemma Cancel(x: real, y: real, s: real)
    requires s > 0.0 && x * s == y * s
    ensures x == y
  {
    assert (x - y) * s == 0.0;
  }

  lemma MulSign(x: real, y: real)
    requires 0.0 <= x && 0.0 < y
    ensures 0.0 <= x * y && 0.0 <= x / y
  {
  }

  /** A feasible plan splits the move into three parts of non-negative length. */
  lemma PartsNonNegative(m: Limits, p: Junction)
    requires WellFormed(m) && Feasible(m, p)
    ensures 0.0 <= AccelD(m, p) && 0.0 <= DecelD(m, p) && 0.0 <= CruiseD(m, p)
  {
    var h := 0.5 / m.accel;
    assert h > 0.0;
    MulSign(p.cruise - p.start, h);
    MulSign(p.cruise - p.end, h);
    var used := (p.cruise - p.start) + (p.cruise - p.end);
    MulSign(m.delta - used, h);
    assert m.delta * h == m.moveD * (2.0 * m.accel * h);
    assert 2.0 * m.accel * h == 1.0;
    assert (m.delta - used) * h == m.delta * h - used * h;
    assert used * h == (p.cruise - p.start) * h + (p.cruise - p.end) * h;
  }

  // ----- segments -----

  ghost predicate Contiguous(segs: seq<Segment>) {
    forall i :: 0 < i < |segs| ==> Meets(segs[i-1], segs[i])
  }

  ghost predicate Meets(a: Segment, b: Segment) {
    EndTime(a) == b.printTime && EndPos(a) == b.startPos && EndV(a) == b.startV
  }

  /** A moment of the trajectory. */
  datatype Tip = Tip(time: real, pos: Coord, v: real)

  function StartOf(s: Segment): Tip { Tip(s.printTime, s.startPos, s.startV) }
  function EndOf(s: Segment): Tip { Tip(EndTime(s), EndPos(s), EndV(s)) }

  /** The segments lead from one moment to another without a jump. */
  ghost predicate Path(segs: seq<Segment>, a: Tip, b: Tip) {
    if segs == [] then a == b
    else StartOf(segs[0]) == a && EndOf(segs[|segs|-1]) == b && Contiguous(segs)
  }

  lemma PathJoins(s: seq<Segment>, t: seq<Segment>, a: Tip, b: Tip, c: Tip)
    requires Path(s, a, b) && Path(t, b, c)
    ensures Path(s + t, a, c)
  {
    if s == [] { assert s + t == t; }
    else if t == [] { assert s + t == s; }
    else {
      var u := s + t;
      forall i | 0 < i < |u| ensures Meets(u[i-1], u[i]) {
        if i < |s| { assert Meets(s[i-1], s[i]); }
        else if i > |s| { assert Meets(t[i-|s|-1], t[i-|s|]); }
      }
    }
  }

  /** A part of a move; parts that take no time are left out. */
  function Part(s: Segment): seq<Segment> {
    if s.moveT == 0.0 then [] else [s]
  }

  lemma PartPath(s: Segment)
    ensures Path(Part(s), StartOf(s), EndOf(s))
  {
    if s.moveT == 0.0 {
      assert Distance(s, s.moveT) == 0.0;
      AlongAdds(s.startPos, s.axesR, 0.0, 0.0);
    }
  }

  /** The segments of one move, starting at the given moment. */
  function Segments(time: real, t: Profile, pos: Coord, axesR: Coord, startV: real, cruiseV: real,
                    accel: real): seq<Segment> {
    var a := Segment(time, t.accelT, startV, 0.5 * accel, pos, axesR);
    var c := Segment(EndTime(a), t.cruiseT, cruiseV, 0.0, EndPos(a), axesR);
    var d := Segment(EndTime(c), t.decelT, cruiseV, 0.5 * -accel, EndPos(c), axesR);
    Part(a) + Part(c) + Part(d)
  }

  lemma AlongAdds(p: Coord, r: Coord, d: real, e: real)
    ensures Along(Along(p, r, d), r, e) == Along(p, r, d + e)
  {
    assert r.x * (d + e) == r.x * d + r.x * e;
    assert r.y * (d + e) == r.y * d + r.y * e;
    assert r.z * (d + e) == r.z * d + r.z * e;
  }

  function Total(t: Profile): real { t.accelT + t.cruiseT + t.decelT }

  /** Three parts that follow one another in direction and speed. */
  lemma ThreeParts(a: Segment, c: Segment, d: Segment, ad: real, cd: real, dd: real)
    requires StartOf(c) == EndOf(a) && StartOf(d) == EndOf(c) && a.axesR == c.axesR == d.axesR
    requires Distance(a, a.moveT) == ad && Distance(c, c.moveT) == cd && Distance(d, d.moveT) == dd
    ensures EndPos(d) == Along(a.startPos, a.axesR, ad + cd + dd)
    ensures Path(Part(a) + Part(c) + Part(d), StartOf(a), EndOf(d))
  {
    AlongAdds(a.startPos, a.axesR, ad, cd);
    AlongAdds(a.startPos, a.axesR, ad + cd, dd);
    PartPath(a); PartPath(c); PartPath(d);
    PathJoins(Part(a), Part(c), StartOf(a), EndOf(a), EndOf(c));
    PathJoins(Part(a) + Part(c), Part(d), StartOf(a), EndOf(c), EndOf(d));
  }

  lemma RampTimeSign(d: real, lo: real, hi: real)
    requires 0.0 <= d && 0.0 < lo + hi
    ensures 0.0 <= RampTime(d, lo, hi)
  {
    MulSign(d, (lo + hi) * 0.5);
  }

  /** A segment whose speed changes by `a` per unit of time. */
  lemma RampSegment(s: Segment, a: real, v: real, d: real)
    requires s.halfAccel == 0.5 * a && a * s.moveT == v - s.startV
    requires (s.startV + 0.5 * a * s.moveT) * s.moveT == d
    ensures Distance(s, s.moveT) == d && EndV(s) == v
  {
  }

  lemma AccelRamp(m: Limits, p: Junction, v: Speeds, t: real)
    requires 0.0 < m.accel && Roots(p, v) && v.cruise > 0.0 && t == RampTime(AccelD(m, p), v.start, v.cruise)
    ensures m.accel * t == v.cruise - v.start && (v.start + 0.5 * m.accel * t) * t == AccelD(m, p)
  {
    RampShape(v.start, v.cruise, p.start, p.cruise, m.accel, 0.5 / m.accel, AccelD(m, p), t);
  }

  lemma DecelRamp(m: Limits, p: Junction, v: Speeds, t: real)
    requires 0.0 < m.accel && Roots(p, v) && v.cruise > 0.0 && t == RampTime(DecelD(m, p), v.end, v.cruise)
    ensures -m.accel * t == v.end - v.cruise && (v.cruise + 0.5 * -m.accel * t) * t == DecelD(m, p)
  {
    RampShape(v.end, v.cruise, p.end, p.cruise, m.accel, 0.5 / m.accel, DecelD(m, p), t);
    Negated(v.cruise, m.accel, t);
  }

  lemma Negated(v: real, a: real, t: real)
    ensures -a * t == -(a * t) && (v + 0.5 * -a * t) * t == (v - 0.5 * a * t) * t
  {
    assert 0.5 * -a * t == -(0.5 * a * t);
  }

  lemma AccelPart(m: Limits, p: Junction, v: Speeds, s: Segment)
    requires WellFormed(m) && Feasible(m, p) && Roots(p, v) && v.cruise > 0.0
    requires s.moveT == TimesOf(m, p, v).accelT && s.startV == v.start && s.halfAccel == 0.5 * m.accel
    ensures 0.0 <= s.moveT && Distance(s, s.moveT) == AccelD(m, p) && EndV(s) == v.cruise
  {
    PartsNonNegative(m, p);
    RampTimeSign(AccelD(m, p), v.start, v.cruise);
    AccelRamp(m, p, v, s.moveT);
    RampSegment(s, m.accel, v.cruise, AccelD(m, p));
  }

  lemma DecelPart(m: Limits, p: Junction, v: Speeds, s: Segment)
    requires WellFormed(m) && Feasible(m, p) && Roots(p, v) && v.cruise > 0.0
    requires s.moveT == TimesOf(m, p, v).decelT && s.startV == v.cruise && s.halfAccel == 0.5 * -m.accel
    ensures 0.0 <= s.moveT && Distance(s, s.moveT) == DecelD(m, p) && EndV(s) == v.end
  {
    PartsNonNegative(m, p);
    RampTimeSign(DecelD(m, p), v.end, v.cruise);
    DecelRamp(m, p, v, s.moveT);
    RampSegment(s, -m.accel, v.end, DecelD(m, p));
  }

  lemma CruisePart(m: Limits, p: Junction, v: Speeds, s: Segment)
    requires WellFormed(m) && Feasible(m, p) && Roots(p, v) && v.cruise > 0.0
    requires s.moveT == TimesOf(m, p, v).cruiseT && s.startV == v.cruise && s.halfAccel == 0.0
    ensures 0.0 <= s.moveT && Distance(s, s.moveT) == CruiseD(m, p) && EndV(s) == v.cruise
  {
    PartsNonNegative(m, p);
    MulSign(CruiseD(m, p), v.cruise);
    DivMul(CruiseD(m, p), v.cruise);
  }

  lemma NoTimeNoDistance(s: Segment)
    ensures s.moveT == 0.0 ==> Distance(s, s.moveT) == 0.0
  {
  }

  /** A feasible move is driven from start to end without a jump, in positive time. */
  lemma MoveDriven(m: Limits, p: Junction, v: Speeds, time: real, pos: Coord, axesR: Coord)
    requires WellFormed(m) && Feasible(m, p) && Roots(p, v) && v.cruise > 0.0
    ensures var t := TimesOf(m, p, v);
            && 0.0 <= t.accelT && 0.0 <= t.cruiseT && 0.0 <= t.decelT && 0.0 < Total(t)
            && Path(Segments(time, t, pos, axesR, v.start, v.cruise, m.accel),
                    Tip(time, pos, v.start), Tip(time + Total(t), Along(pos, axesR, m.moveD), v.end))
  {
    var t := TimesOf(m, p, v);
    var a := Segment(time, t.accelT, v.start, 0.5 * m.accel, pos, axesR);
    var c := Segment(EndTime(a), t.cruiseT, v.cruise, 0.0, EndPos(a), axesR);
    var d := Segment(EndTime(c), t.decelT, v.cruise, 0.5 * -m.accel, EndPos(c), axesR);
    AccelPart(m, p, v, a);
    CruisePart(m, p, v, c);
    DecelPart(m, p, v, d);
    NoTimeNoDistance(a); NoTimeNoDistance(c); NoTimeNoDistance(d);
    ThreeParts(a, c, d, AccelD(m, p), CruiseD(m, p), DecelD(m, p));
  }
}
