/**
 Runs of the look-ahead queue: adding moves, lazy flushes and full flushes in any order.

 The state keeps everything ever released.  The moves released since the queue was last
 empty, followed by the queue, are the open batch.  The invariant says that releasing moves
 early is invisible: what was released is what planning the whole batch at once, however it
 goes on, would give.
 */
module LookaheadRun {
  import opened LookaheadPlan
  import opened LookaheadFinality

  const LOOKAHEAD_FLUSH_TIME := 0.25

  /** A move as handed to the queue.  `opposed` says that the two directions are nearly opposite;
      `cap` is the least of the angle, centripetal and extruder limits. */
  datatype NewMove = NewMove(limits: Limits, opposed: bool, cap: real, minMoveT: real)

  datatype Emitted = Emitted(limits: Limits, junction: Junction)

  datatype Event = Add(move: NewMove) | FlushAll | SetFlushTime(time: real)

  datatype State = State(emitted: seq<Emitted>, base: nat, queue: seq<Limits>, timer: real)

  const Initial := State([], 0, [], LOOKAHEAD_FLUSH_TIME)

  ghost predicate Fresh(m: NewMove) {
    && WellFormed(m.limits) && m.limits.maxStart == 0.0 && 0.0 <= m.cap
  }

  function CalcJunction(prev: Limits, m: NewMove): Limits {
    if !m.limits.kinematic || !prev.kinematic || m.opposed then m.limits
    else
      var maxStart := Min(Min(m.cap, Min(m.limits.maxCruise, prev.maxCruise)), prev.maxStart + prev.delta);
      m.limits.(maxStart := maxStart,
                maxSmoothed := Min(maxStart, prev.maxSmoothed + prev.smoothDelta))
  }

  lemma CalcJunctionJoins(prev: Limits, m: NewMove)
    requires WellFormed(prev) && Fresh(m)
    ensures WellFormed(CalcJunction(prev, m)) && Joined(prev, CalcJunction(prev, m))
  {
  }

  function FlushCount(q: seq<Limits>, lazy: bool): (n: nat)
    ensures n <= |q|
  {
    if !lazy then |q| else var f := LazyCount(q, 0); if f > 0 then f else 0
  }

  function Released(q: seq<Limits>, n: nat): seq<Emitted>
    requires n <= |q|
  {
    seq(n, i requires 0 <= i < n => Emitted(q[i], PlanAt(q, i)))
  }

  function Flush(s: State, lazy: bool): State
  {
    var n := FlushCount(s.queue, lazy);
    var emitted := s.emitted + Released(s.queue, n);
    State(emitted, if n == |s.queue| then |emitted| else s.base, s.queue[n..], LOOKAHEAD_FLUSH_TIME)
  }

  /** The move as it sits on the queue: the first move of a queue keeps its limits. */
  function Junctioned(q: seq<Limits>, m: NewMove): Limits {
    if q == [] then m.limits else CalcJunction(q[|q|-1], m)
  }

  function Append(s: State, m: NewMove): State {
    s.(queue := s.queue + [Junctioned(s.queue, m)],
       timer := if s.queue == [] then s.timer else s.timer - m.minMoveT)
  }

  function AddMove(s: State, m: NewMove): State {
    var added := Append(s, m);
    if s.queue != [] && added.timer <= 0.0 then Flush(added, true) else added
  }

  function Step(s: State, e: Event): State {
    match e
    case Add(m) => AddMove(s, m)
    case FlushAll => Flush(s, false)
    case SetFlushTime(t) => s.(timer := t)
  }

  function Run(es: seq<Event>): State {
    if es == [] then Initial else Step(Run(es[..|es|-1]), es[|es|-1])
  }

  // ----- the invariant -----

  function LimitsOf(es: seq<Emitted>): (q: seq<Limits>)
    ensures |q| == |es|
    ensures forall i :: 0 <= i < |q| ==> q[i] == es[i].limits
  {
    seq(|es|, i requires 0 <= i < |es| => es[i].limits)
  }

  function Batch(s: State): seq<Limits>
    requires s.base <= |s.emitted|
  {
    LimitsOf(s.emitted[s.base..]) + s.queue
  }

  /** However batch q goes on, planning it whole gives its released part the plan it was released with. */
  ghost predicate Decided(q: seq<Limits>, released: seq<Emitted>)
    requires |released| <= |q|
  {
    forall ext: seq<Limits>, i: nat :: i < |released| && Chain(q + ext)
      ==> PlanAt(q + ext, i) == released[i].junction
  }

  /** Speeds meet at every boundary, starting from rest, and every plan can be driven. */
  ghost predicate SpeedsMeet(es: seq<Emitted>) {
    && (es != [] ==> es[0].junction.start == 0.0)
    && (forall i :: 0 < i < |es| ==> es[i-1].junction.end == es[i].junction.start)
    && (forall i :: 0 <= i < |es| ==> WellFormed(es[i].limits) && Feasible(es[i].limits, es[i].junction))
  }

  ghost predicate AtRest(es: seq<Emitted>) {
    es != [] ==> es[|es|-1].junction.end == 0.0
  }

  ghost predicate Inv(s: State) {
    && s.base <= |s.emitted|
    && Chain(Batch(s))
    && (Batch(s) != [] ==> Batch(s)[0].maxStart == 0.0)
    && (if s.queue == [] then s.base == |s.emitted| else Accel(s.queue, 0))
    && SpeedsMeet(s.emitted[..s.base]) && AtRest(s.emitted[..s.base])
    && Decided(Batch(s), s.emitted[s.base..])
  }

  lemma StartsFromRest(q: seq<Limits>)
    requires Chain(q) && q != [] && q[0].maxStart == 0.0
    ensures Accel(q, 0) && PlanAt(q, 0).start == 0.0
  {
    assert WellFormed(q[0]);
    Bounds(q, 0);
    Bounds(q, 1);
    PlanFeasible(q, 0);
  }

  lemma LastEndsAtRest(q: seq<Limits>)
    requires Chain(q) && q != [] && Accel(q, 0)
    ensures PlanAt(q, |q| - 1).end == 0.0
  {
    PlanFeasible(q, |q| - 1);
  }

  /** A planned batch on its own. */
  lemma BatchMeets(q: seq<Limits>, tail: seq<Emitted>)
    requires Chain(q) && q != [] && q[0].maxStart == 0.0 && |tail| <= |q|
    requires forall i :: 0 <= i < |tail| ==> tail[i] == Emitted(q[i], PlanAt(q, i))
    ensures SpeedsMeet(tail) && (|tail| == |q| ==> AtRest(tail))
  {
    hide Feasible, WellFormed, Joined, PlanAt, Accel;
    StartsFromRest(q);
    LastEndsAtRest(q);
    forall i | 0 < i < |tail| ensures tail[i-1].junction.end == tail[i].junction.start {
      Continuity(q, i - 1);
    }
    forall i | 0 <= i < |tail| ensures WellFormed(tail[i].limits) && Feasible(tail[i].limits, tail[i].junction) {
      PlanFeasible(q, i);
      assert WellFormed(q[i]);
    }
  }

  /** A planned batch appended to a history that ends at rest. */
  lemma AppendBatch(es: seq<Emitted>, q: seq<Limits>, tail: seq<Emitted>)
    requires SpeedsMeet(es) && AtRest(es)
    requires Chain(q) && q != [] && q[0].maxStart == 0.0 && |tail| <= |q|
    requires forall i :: 0 <= i < |tail| ==> tail[i] == Emitted(q[i], PlanAt(q, i))
    ensures SpeedsMeet(es + tail)
    ensures |tail| == |q| ==> AtRest(es + tail)
  {
    hide Feasible, WellFormed, Chain, PlanAt;
    BatchMeets(q, tail);
  }

  /** The released part of the open batch is a prefix of the plan of the batch. */
  lemma OpenPart(s: State)
    requires Inv(s)
    ensures var q := Batch(s); var tail := s.emitted[s.base..];
            |tail| <= |q| && forall i :: 0 <= i < |tail| ==> tail[i] == Emitted(q[i], PlanAt(q, i))
  {
    assert Batch(s) + [] == Batch(s);
  }

  lemma InvMeets(s: State)
    requires Inv(s)
    ensures SpeedsMeet(s.emitted)
    ensures s.queue == [] ==> AtRest(s.emitted)
  {
    assert s.emitted == s.emitted[..s.base] + s.emitted[s.base..];
    if Batch(s) == [] {
      assert s.emitted == s.emitted[..s.base];
    } else {
      OpenPart(s);
      AppendBatch(s.emitted[..s.base], Batch(s), s.emitted[s.base..]);
    }
  }

  // ----- preservation -----

  lemma ChainSuffix(a: seq<Limits>, b: seq<Limits>)
    requires Chain(a + b)
    ensures Chain(b)
  {
    forall i | 0 <= i < |b| ensures WellFormed(b[i]) { assert (a + b)[|a| + i] == b[i]; }
    forall i | 0 < i < |b| ensures Joined(b[i-1], b[i]) {
      assert (a + b)[|a| + i - 1] == b[i-1] && (a + b)[|a| + i] == b[i];
    }
  }

  /** A flush that leaves moves behind moves them within the batch. */
  lemma FlushBatch(s: State, n: nat)
    requires s.base <= |s.emitted| && n <= |s.queue|
    ensures LimitsOf((s.emitted + Released(s.queue, n))[s.base..]) + s.queue[n..] == Batch(s)
    ensures (s.emitted + Released(s.queue, n))[s.base..] == s.emitted[s.base..] + Released(s.queue, n)
    ensures (s.emitted + Released(s.queue, n))[..s.base] == s.emitted[..s.base]
  {
  }

  /** Planning the queue alone agrees with planning the batch. */
  lemma QueueInBatch(a: seq<Limits>, q: seq<Limits>, ext: seq<Limits>, i: nat)
    requires i < |q| && Accel(q, 0) && Chain(a + q + ext)
    ensures Chain(q + ext)
    ensures PlanAt(a + q + ext, |a| + i) == PlanAt(q + ext, i)
  {
    assert a + q + ext == a + (q + ext);
    ChainSuffix(a, q + ext);
    Grows(q, ext, 0);
    SuffixPlansAlone(a, q + ext, i);
  }

  lemma LazyDecided(released: seq<Emitted>, q: seq<Limits>, n: nat)
    requires q != [] && Accel(q, 0) && Decided(LimitsOf(released) + q, released)
    requires n == FlushCount(q, true)
    ensures Decided(LimitsOf(released) + q, released + Released(q, n))
  {
    var a := LimitsOf(released);
    var more := released + Released(q, n);
    forall ext: seq<Limits>, i: nat | i < |more| && Chain(a + q + ext)
      ensures PlanAt(a + q + ext, i) == more[i].junction
    {
      if i >= |a| {
        QueueInBatch(a, q, ext, i - |a|);
        LazyPrefixIsFinal(q, ext, i - |a|);
      }
    }
  }

  /** A lazy flush leaves at least one move, and the first one left can accelerate. */
  lemma LazyRest(q: seq<Limits>, n: nat)
    requires q != [] && Accel(q, 0) && n == FlushCount(q, true)
    ensures n < |q| && Accel(q[n..], 0)
  {
    hide LazyCount, Peak;
    assert q[..n] + q[n..] == q;
    SuffixSpeeds(q[..n], q[n..], 0);
  }

  lemma EmptyFlush(s: State, lazy: bool)
    requires s.queue == [] && s.base == |s.emitted|
    ensures Flush(s, lazy) == s.(timer := LOOKAHEAD_FLUSH_TIME)
  {
  }

  lemma LazyFlushPreserves(s: State)
    requires Inv(s)
    ensures Inv(Flush(s, true))
  {
    hide Accel, Chain, Decided, SpeedsMeet, AtRest, FlushCount, LimitsOf, Released, LazyCount;
    var n := FlushCount(s.queue, true);
    if s.queue == [] {
      EmptyFlush(s, true);
    } else {
      LazyRest(s.queue, n);
      FlushBatch(s, n);
      LazyDecided(s.emitted[s.base..], s.queue, n);
    }
  }

  /** The whole batch has been released according to its own plan. */
  lemma FullRelease(released: seq<Emitted>, q: seq<Limits>, i: nat)
    requires q != [] ==> Accel(q, 0)
    requires Chain(LimitsOf(released) + q) && Decided(LimitsOf(released) + q, released)
    requires i < |released| + |q|
    ensures var b := LimitsOf(released) + q;
            (released + Released(q, |q|))[i] == Emitted(b[i], PlanAt(b, i))
  {
    var b := LimitsOf(released) + q;
    assert b + [] == b && q + [] == q;
    if i >= |released| {
      QueueInBatch(LimitsOf(released), q, [], i - |released|);
    } else {
      assert PlanAt(b + [], i) == released[i].junction;
    }
  }

  lemma FullFlushPreserves(s: State)
    requires Inv(s)
    ensures Inv(Flush(s, false))
  {
    var t := Flush(s, false);
    var past, tail := s.emitted[..s.base], s.emitted[s.base..] + Released(s.queue, |s.queue|);
    assert t.emitted == past + tail;
    if Batch(s) == [] {
      assert t.emitted == past;
    } else {
      forall i | 0 <= i < |tail| ensures tail[i] == Emitted(Batch(s)[i], PlanAt(Batch(s), i)) {
        FullRelease(s.emitted[s.base..], s.queue, i);
      }
      AppendBatch(past, Batch(s), tail);
    }
    assert t.emitted[..t.base] == t.emitted;
  }

  lemma AppendDecided(q: seq<Limits>, x: Limits, released: seq<Emitted>)
    requires |released| <= |q| && Decided(q, released)
    ensures Decided(q + [x], released)
  {
    forall ext: seq<Limits>, i: nat | i < |released| && Chain(q + [x] + ext)
      ensures PlanAt(q + [x] + ext, i) == released[i].junction
    {
      assert q + [x] + ext == q + ([x] + ext);
    }
  }

  lemma AppendAccel(a: seq<Limits>, q: seq<Limits>, x: Limits)
    requires Chain(a + q + [x])
    requires if q == [] then a == [] && x.maxStart == 0.0 else Accel(q, 0)
    ensures Accel(q + [x], 0)
  {
    assert a + q + [x] == a + (q + [x]);
    ChainSuffix(a, q + [x]);
    if q == [] { StartsFromRest(q + [x]); } else { Grows(q, [x], 0); }
  }

  lemma AppendChain(b: seq<Limits>, x: Limits)
    requires Chain(b) && WellFormed(x) && (b != [] ==> Joined(b[|b|-1], x))
    ensures Chain(b + [x])
  {
    hide WellFormed, Joined;
  }

  /** The appended move joins the last queued one, or starts a new batch from rest. */
  lemma AppendJoins(q: seq<Limits>, m: NewMove)
    requires Fresh(m) && (q != [] ==> WellFormed(q[|q|-1]))
    ensures WellFormed(Junctioned(q, m))
    ensures if q == [] then Junctioned(q, m).maxStart == 0.0 else Joined(q[|q|-1], Junctioned(q, m))
  {
    if q != [] { CalcJunctionJoins(q[|q|-1], m); }
  }

  /** The open batch b, of which q is still queued, after one more move. */
  lemma AppendBatchChain(a: seq<Limits>, q: seq<Limits>, m: NewMove)
    requires Chain(a + q) && Fresh(m) && (q == [] ==> a == [])
    ensures Chain(a + q + [Junctioned(q, m)])
  {
    hide WellFormed, Joined, CalcJunction;
    var b := a + q;
    if q != [] {
      assert b[|b|-1] == q[|q|-1];
      assert WellFormed(b[|b|-1]);
    }
    AppendJoins(q, m);
    AppendChain(b, Junctioned(q, m));
  }

  lemma AppendedBatch(s: State, m: NewMove)
    requires s.base <= |s.emitted|
    ensures Batch(Append(s, m)) == Batch(s) + [Junctioned(s.queue, m)]
  {
    hide LimitsOf, Junctioned;
  }

  /** What the invariant says of the parts that an added move touches. */
  ghost predicate OpenInv(a: seq<Limits>, q: seq<Limits>) {
    && Chain(a + q)
    && (a + q != [] ==> (a + q)[0].maxStart == 0.0)
    && (if q == [] then a == [] else Accel(q, 0))
  }

  lemma AppendOpen(a: seq<Limits>, q: seq<Limits>, m: NewMove)
    requires OpenInv(a, q) && Fresh(m)
    ensures OpenInv(a, q + [Junctioned(q, m)])
  {
    hide Accel, Chain, WellFormed, Joined, CalcJunction, Junctioned;
    var x := Junctioned(q, m);
    AppendBatchChain(a, q, m);
    if q == [] { AppendStart(q, m); }
    AppendAccel(a, q, x);
    assert a + q + [x] == a + (q + [x]);
    assert a + q != [] ==> (a + q + [x])[0] == (a + q)[0];
  }

  lemma AppendStart(q: seq<Limits>, m: NewMove)
    requires q == [] && Fresh(m)
    ensures Junctioned(q, m).maxStart == 0.0
  {
  }

  lemma AppendPreserves(s: State, m: NewMove)
    requires Inv(s) && Fresh(m)
    ensures Inv(Append(s, m))
  {
    hide Accel, Chain, Decided, SpeedsMeet, AtRest, Fresh, Junctioned, LimitsOf;
    var a := LimitsOf(s.emitted[s.base..]);
    AppendOpen(a, s.queue, m);
    AppendedBatch(s, m);
    AppendDecided(Batch(s), Junctioned(s.queue, m), s.emitted[s.base..]);
  }

  lemma AddPreserves(s: State, m: NewMove)
    requires Inv(s) && Fresh(m)
    ensures Inv(AddMove(s, m))
  {
    AppendPreserves(s, m);
    LazyFlushPreserves(Append(s, m));
  }

  ghost predicate Admissible(es: seq<Event>) {
    forall i :: 0 <= i < |es| && es[i].Add? ==> Fresh(es[i].move)
  }

  lemma {:induction false} RunKeepsInv(es: seq<Event>)
    requires Admissible(es)
    ensures Inv(Run(es))
  {
    if es == [] {
      assert Batch(Initial) == [];
    } else {
      var s := Run(es[..|es|-1]);
      RunKeepsInv(es[..|es|-1]);
      match es[|es|-1]
      case Add(m) => AddPreserves(s, m);
      case FlushAll => FullFlushPreserves(s);
      case SetFlushTime(t) => assert Batch(s.(timer := t)) == Batch(s);
    }
  }

  // ----- when moves are released -----

  /** What the look-ahead time was last set to, and the times of the moves joined to the queue since. */
  datatype Budget = Budget(allowed: real, used: real)

  function BudgetOf(es: seq<Event>): Budget {
    if es == [] then Budget(LOOKAHEAD_FLUSH_TIME, 0.0)
    else
      var before, b := es[..|es|-1], BudgetOf(es[..|es|-1]);
      match es[|es|-1]
      case FlushAll => Budget(LOOKAHEAD_FLUSH_TIME, 0.0)
      case SetFlushTime(t) => Budget(t, 0.0)
      case Add(m) =>
        if Run(before).queue == [] then b
        else if b.used + m.minMoveT < b.allowed then b.(used := b.used + m.minMoveT)
        else Budget(LOOKAHEAD_FLUSH_TIME, 0.0)
  }

  lemma {:induction false} TimerIsBudget(es: seq<Event>)
    ensures Run(es).timer == BudgetOf(es).allowed - BudgetOf(es).used
  {
    hide FlushCount, Released, Junctioned;
    if es != [] { TimerIsBudget(es[..|es|-1]); }
  }

  /**
   After any run, a move added to a queue that is not empty brings on a lazy flush if and only
   if the times of the moves joined since the look-ahead time was last set use it up.  Without
   a flush nothing is released, and a full flush releases everything.  It is a quarter of a
   second unless set otherwise.
   */
  lemma FlushedIff(es: seq<Event>, m: NewMove)
    ensures BudgetOf([]) == Budget(0.25, 0.0) == BudgetOf(es + [FlushAll])
    ensures var s, b := Run(es), BudgetOf(es); var added := Append(s, m);
            && Run(es + [Add(m)]) == (if s.queue != [] && b.allowed <= b.used + m.minMoveT
                                      then Flush(added, true) else added)
            && added.emitted == s.emitted && |added.queue| == |s.queue| + 1
            && Run(es + [FlushAll]).queue == []
            && |Run(es + [FlushAll]).emitted| == |s.emitted| + |s.queue|
  {
    hide LazyCount, Junctioned;
    TimerIsBudget(es);
    assert (es + [Add(m)])[..|es|] == es && (es + [FlushAll])[..|es|] == es;
  }

  // ----- main results -----

  /** In every run the speeds of neighbouring released moves meet and every plan is feasible;
      once the queue is empty the last move ends at rest. */
  lemma ReleasedSpeedsMeet(es: seq<Event>)
    requires Admissible(es)
    ensures SpeedsMeet(Run(es).emitted)
    ensures Run(es).queue == [] ==> AtRest(Run(es).emitted)
  {
    RunKeepsInv(es);
    InvMeets(Run(es));
  }

  /** Releasing moves early is invisible: what has been released of a batch is the plan that a
      single flush of the whole batch gives, also after any admissible continuation. */
  lemma EarlyReleaseIsInvisible(es: seq<Event>, ext: seq<Limits>)
    requires Admissible(es)
    ensures var s := Run(es);
            && s.base <= |s.emitted|
            && (Chain(Batch(s) + ext) ==>
                  forall i: nat :: i < |s.emitted| - s.base ==>
                    s.emitted[s.base + i].junction == PlanAt(Batch(s) + ext, i))
  {
    RunKeepsInv(es);
    var s := Run(es);
    assert forall i :: 0 <= i < |s.emitted| - s.base ==> s.emitted[s.base + i] == s.emitted[s.base..][i];
  }

  function Submitted(es: seq<Event>): seq<Limits> {
    if es == [] then []
    else Submitted(es[..|es|-1]) + (if es[|es|-1].Add? then [es[|es|-1].move.limits] else [])
  }

  function Identity(q: seq<Limits>): (r: seq<Limits>)
    ensures |r| == |q|
    ensures forall i :: 0 <= i < |q| ==> r[i] == q[i].(maxStart := 0.0, maxSmoothed := 0.0)
  {
    seq(|q|, i requires 0 <= i < |q| => q[i].(maxStart := 0.0, maxSmoothed := 0.0))
  }

  function AllMoves(s: State): seq<Limits> {
    LimitsOf(s.emitted) + s.queue
  }

  lemma FlushConserves(s: State, lazy: bool)
    ensures AllMoves(Flush(s, lazy)) == AllMoves(s)
  {
  }

  lemma AppendConserves(s: State, m: NewMove)
    requires Fresh(m)
    ensures Identity(AllMoves(Append(s, m))) == Identity(AllMoves(s)) + [m.limits]
  {
    assert AllMoves(Append(s, m)) == AllMoves(s) + [Junctioned(s.queue, m)];
  }

  /** Every submitted move is either still queued or was released exactly once, in submission order. */
  lemma {:induction false} NoMoveLost(es: seq<Event>)
    requires Admissible(es)
    ensures Identity(AllMoves(Run(es))) == Submitted(es)
  {
    if es != [] {
      var s := Run(es[..|es|-1]);
      NoMoveLost(es[..|es|-1]);
      match es[|es|-1]
      case Add(m) =>
        AppendConserves(s, m);
        FlushConserves(Append(s, m), true);
      case FlushAll => FlushConserves(s, false);
      case SetFlushTime(_) =>
    }
  }
}
