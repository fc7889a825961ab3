/**
 What later moves can and cannot change.

 A lazy flush releases the moves before the second acceleration peak, counted from the
 end of the queue.  `LazyPrefixIsFinal` shows that no moves added afterwards would change
 their plan, and `SuffixPlansAlone` that the moves that stay behind are planned the same
 with or without the released ones.
 */
module LookaheadFinality {
  import opened LookaheadPlan

  /** Number of moves a lazy flush of q releases, looking at the moves from k on; -1 when not known yet. */
  function LazyCount(q: seq<Limits>, k: nat): (f: int)
    requires k <= |q|
    ensures f == -1 || k <= f < |q|
    ensures f >= 0 ==> NewPeak(q, f) && Peak(q, f + 1) != 0.0
    decreases |q| - k
  {
    if k == |q| then -1
    else
      var r := LazyCount(q, k + 1);
      if r >= 0 then r
      else if NewPeak(q, k) && Peak(q, k + 1) != 0.0 then k
      else -1
  }

  /** A lazy flush goes as far as it can: to the last peak after which another one is known. */
  lemma {:induction false} LazyCountIsLast(q: seq<Limits>, k: nat, i: nat)
    requires k <= i < |q| && NewPeak(q, i) && Peak(q, i + 1) != 0.0
    ensures i <= LazyCount(q, k)
    decreases |q| - k
  {
    if k < i { LazyCountIsLast(q, k + 1, i); }
  }

  /** Later moves can only allow more speed. */
  lemma {:induction false} Grows(q: seq<Limits>, ext: seq<Limits>, i: nat)
    requires Chain(q + ext) && i <= |q|
    ensures Start(q, i) <= Start(q + ext, i)
    ensures Smoothed(q, i) <= Smoothed(q + ext, i)
    ensures i < |q| && Accel(q, i) ==> Accel(q + ext, i) && Smoothed(q + ext, i) == q[i].maxSmoothed == Smoothed(q, i)
    decreases |q| - i
  {
    if i == |q| {
      Bounds(q + ext, i);
    } else {
      Grows(q, ext, i + 1);
      assert WellFormed((q + ext)[i]);
    }
  }

  lemma ChainPrefix(q: seq<Limits>, ext: seq<Limits>)
    requires Chain(q + ext)
    ensures Chain(q)
  {
    forall i | 0 <= i < |q| ensures WellFormed(q[i]) { assert (q + ext)[i] == q[i]; }
    forall i | 0 < i < |q| ensures Joined(q[i-1], q[i]) { assert (q + ext)[i-1] == q[i-1] && (q + ext)[i] == q[i]; }
  }

  /** Below a move j that can accelerate, smoothing is decided. */
  lemma {:induction false} SmoothedFinal(q: seq<Limits>, ext: seq<Limits>, j: nat, i: nat)
    requires Chain(q + ext) && i <= j < |q| && Accel(q, j)
    ensures Smoothed(q + ext, i) == Smoothed(q, i)
    ensures Accel(q + ext, i) == Accel(q, i)
    ensures i < j ==> NewPeak(q + ext, i) == NewPeak(q, i)
    decreases j - i
  {
    if i == j {
      Grows(q, ext, j);
    } else {
      SmoothedFinal(q, ext, j, i + 1);
    }
  }

  lemma {:induction false} PeakFinal(q: seq<Limits>, ext: seq<Limits>, j: nat, f: nat, i: nat)
    requires Chain(q + ext) && i <= f < j < |q| && Accel(q, j) && NewPeak(q, f)
    ensures Peak(q + ext, i) == Peak(q, i)
    decreases f - i
  {
    SmoothedFinal(q, ext, j, i);
    SmoothedFinal(q, ext, j, i + 1);
    if i < f { PeakFinal(q, ext, j, f, i + 1); }
  }

  /** The start speed of move i is decided, or it lies above the peak and never shows. */
  predicate Settled(q: seq<Limits>, ext: seq<Limits>, i: nat)
    requires i < |q|
  {
    Start(q + ext, i) == Start(q, i) || (Accel(q, i) && Peak(q, i) <= Start(q, i))
  }

  /** After a deceleration, and after a move with a peak of its own, the start speed is the junction limit. */
  lemma EndPinned(q: seq<Limits>, ext: seq<Limits>, i: nat)
    requires Chain(q) && Chain(q + ext) && i + 1 < |q| && Accel(q, i + 1)
    requires NewPeak(q, i) || !Accel(q, i)
    ensures Start(q + ext, i + 1) == Start(q, i + 1)
  {
    Bounds(q, i);
    Bounds(q + ext, i + 1);
    Pinned(q, i + 1);
    Grows(q, ext, i + 1);
  }

  lemma LastPeakSettles(q: seq<Limits>, ext: seq<Limits>, f: nat)
    requires Chain(q) && Chain(q + ext) && f < |q| && NewPeak(q, f)
    ensures Settled(q, ext, f)
  {
    Grows(q, ext, f);
    Bounds(q + ext, f);
    Bounds(q, f + 1);
    NewPeakAboveEnd(q, f);
  }

  lemma {:induction false} StartSettles(q: seq<Limits>, ext: seq<Limits>, f: nat, i: nat)
    requires Chain(q) && Chain(q + ext) && i <= f < |q| && NewPeak(q, f)
    ensures Settled(q, ext, i)
    decreases f - i
  {
    if i == f {
      LastPeakSettles(q, ext, f);
    } else {
      StartSettles(q, ext, f, i + 1);
      if Accel(q, i + 1) && (NewPeak(q, i) || !Accel(q, i)) {
        EndPinned(q, ext, i);
      }
      StepSettles(q, ext, i);
    }
  }

  lemma StepSettles(q: seq<Limits>, ext: seq<Limits>, i: nat)
    requires Chain(q) && Chain(q + ext) && i + 1 < |q| && Settled(q, ext, i + 1)
    requires Accel(q, i + 1) && (NewPeak(q, i) || !Accel(q, i)) ==> Start(q + ext, i + 1) == Start(q, i + 1)
    ensures Settled(q, ext, i)
  {
    if Start(q + ext, i + 1) != Start(q, i + 1) {
      Grows(q, ext, i);
      Bounds(q + ext, i);
    }
  }

  lemma {:induction false} CapFinal(q: seq<Limits>, ext: seq<Limits>, j: nat, f: nat, i: nat)
    requires Chain(q) && Chain(q + ext) && i < f < j < |q| && Accel(q, j) && NewPeak(q, f)
    requires !Accel(q, i)
    ensures Cap(q + ext, i) == Cap(q, i)
  {
    StartSettles(q, ext, f, i);
    if i > 0 {
      SmoothedFinal(q, ext, j, i - 1);
      if Accel(q, i - 1) { PeakFinal(q, ext, j, f, i - 1); } else { CapFinal(q, ext, j, f, i - 1); }
    }
  }

  /** An undecided end speed of an accelerating move exceeds the peak. */
  lemma EndSettles(q: seq<Limits>, ext: seq<Limits>, f: nat, i: nat)
    requires Chain(q) && Chain(q + ext) && i < f < |q| && NewPeak(q, f)
    ensures Start(q + ext, i + 1) == Start(q, i + 1) || (Accel(q, i) && Peak(q, i) <= Start(q, i + 1))
  {
    StartSettles(q, ext, f, i + 1);
    if Accel(q, i + 1) && (NewPeak(q, i) || !Accel(q, i)) {
      EndPinned(q, ext, i);
    }
  }

  /** Speeds above the peak p do not show in the plan. */
  lemma HiddenByPeak(s: real, s': real, e: real, e': real, delta: real, mc: real, p: real)
    requires s == s' || (p <= s <= s' && e != e')
    requires e == e' || (p <= e <= e')
    requires e <= s + delta && e' <= s' + delta && e <= mc && e' <= mc
    ensures var c := Min(Min((s + e + delta) * 0.5, mc), p);
            var c' := Min(Min((s' + e' + delta) * 0.5, mc), p);
            0.0 <= delta ==> c == c' && Min(s, c) == Min(s', c') && Min(e, c) == Min(e', c')
  {
  }

  lemma PlanFinal(q: seq<Limits>, ext: seq<Limits>, j: nat, f: nat, i: nat)
    requires Chain(q) && Chain(q + ext) && i < f < j < |q| && Accel(q, j) && NewPeak(q, f)
    ensures PlanAt(q + ext, i) == PlanAt(q, i)
  {
    SmoothedFinal(q, ext, j, i);
    StartSettles(q, ext, f, i);
    EndSettles(q, ext, f, i);
    if Accel(q, i) {
      PeakFinal(q, ext, j, f, i);
      Grows(q, ext, i); Grows(q, ext, i + 1);
      RisesSlowly(q, i);
      RisesSlowly(q + ext, i);
      HiddenByPeak(Start(q, i), Start(q + ext, i), Start(q, i + 1), Start(q + ext, i + 1),
                   q[i].delta, q[i].maxCruise, Peak(q, i));
    } else {
      CapFinal(q, ext, j, f, i);
    }
  }

  /** The moves a lazy flush releases keep their plan whatever moves follow. */
  lemma LazyPrefixIsFinal(q: seq<Limits>, ext: seq<Limits>, i: nat)
    requires Chain(q + ext) && i < LazyCount(q, 0)
    ensures PlanAt(q + ext, i) == PlanAt(q, i)
  {
    ChainPrefix(q, ext);
    var f := LazyCount(q, 0);
    var j := EarlierPeak(q, f + 1);
    PlanFinal(q, ext, j, f, i);
  }

  lemma {:induction false} EarlierPeak(q: seq<Limits>, k: nat) returns (j: nat)
    requires k <= |q| && Peak(q, k) != 0.0
    ensures k <= j < |q| && NewPeak(q, j)
    decreases |q| - k
  {
    if NewPeak(q, k) { j := k; } else { j := EarlierPeak(q, k + 1); }
  }

  // ----- the moves left behind -----

  lemma {:induction false} SuffixSpeeds(a: seq<Limits>, b: seq<Limits>, i: nat)
    requires i <= |b|
    ensures Start(a + b, |a| + i) == Start(b, i)
    ensures Smoothed(a + b, |a| + i) == Smoothed(b, i)
    ensures i < |b| ==> Accel(a + b, |a| + i) == Accel(b, i) && NewPeak(a + b, |a| + i) == NewPeak(b, i)
    ensures Peak(a + b, |a| + i) == Peak(b, i)
    decreases |b| - i
  {
    if i < |b| {
      assert (a + b)[|a| + i] == b[i];
      SuffixSpeeds(a, b, i + 1);
      assert Start(a + b, |a| + i) == Start(b, i);
      assert Smoothed(a + b, |a| + i) == Smoothed(b, i);
    }
  }

  lemma {:induction false} SuffixCap(a: seq<Limits>, b: seq<Limits>, i: nat)
    requires i < |b| && Accel(b, 0) && !Accel(b, i)
    ensures Cap(a + b, |a| + i) == Cap(b, i)
  {
    SuffixSpeeds(a, b, i);
    SuffixSpeeds(a, b, i - 1);
    if !Accel(b, i - 1) { SuffixCap(a, b, i - 1); }
  }

  /** Moves in front change nothing for a queue whose first move can accelerate. */
  lemma SuffixPlansAlone(a: seq<Limits>, b: seq<Limits>, i: nat)
    requires i < |b| && Accel(b, 0)
    ensures PlanAt(a + b, |a| + i) == PlanAt(b, i)
  {
    SuffixSpeeds(a, b, i);
    SuffixSpeeds(a, b, i + 1);
    assert (a + b)[|a| + i] == b[i];
    if !Accel(b, i) { SuffixCap(a, b, i); }
  }
}
