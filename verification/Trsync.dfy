/** Stopping steppers on a trigger. */
module Trsync {
  import opened StepReplay
  import opened StepperFold
  import opened StepperObject

  /** The stop signal of a stepper; active while it is on a list. */
  class Signal {
    var active: bool
    const stepper: Stepper

    constructor (stepper: Stepper)
      ensures !active && this.stepper == stepper
    {
      active, this.stepper := false, stepper;
    }

    /** Leaves the list and stops the stepper. */
    method Fire(ghost past: Past)
      requires On(this, past)
      modifies this, stepper
      ensures Off(this, past)
    {
      hide StepperFold.Sound, StepperAhead.Plays, StepperPosition.Frozen, StepperPlayback.OnTime;
      active := false;
      stepper.Stop();
    }
  }

  /** What a stepper has done before it is stopped, and whether its invariant holds. */
  datatype Past = Past(issued: seq<Step>, net: int, valid: bool)

  ghost function PastOf(s: Signal): Past
    reads s, s.stepper
  {
    Past(s.stepper.issued, s.stepper.net, s.stepper.Valid())
  }

  ghost predicate On(s: Signal, past: Past)
    reads s, s.stepper
  {
    s.active && PastOf(s) == past
  }

  ghost predicate Off(s: Signal, past: Past)
    reads s, s.stepper
  {
    && !s.active && Stopped(s.stepper) && s.stepper.issued == past.issued && s.stepper.net == past.net
    && (past.valid && InRange(past.net) ==> s.stepper.Valid())
  }

  /** Signals of different steppers. */
  ghost predicate Apart(signals: seq<Signal>) {
    forall i, j :: 0 <= i < j < |signals| ==> signals[i] != signals[j] && signals[i].stepper != signals[j].stepper
  }

  /** Nothing is left to do, and nothing will be done until the step clock is reset. */
  ghost predicate Stopped(s: Stepper)
    reads s
  {
    s.needReset && s.count == 0 && s.mq == []
  }

  ghost function Steppers(signals: seq<Signal>): set<Stepper> {
    set s | s in signals :: s.stepper
  }

  class TriggerSync {
    var canTrigger: bool
    var report: bool
    var reason: int
    var signals: seq<Signal>

    ghost predicate Valid()
      reads this, signals
    {
      Apart(signals) && forall i :: 0 <= i < |signals| ==> signals[i].active
    }

    constructor ()
      ensures Valid() && !canTrigger && signals == []
    {
      canTrigger, report, reason, signals := false, false, 0, [];
    }

    /** False is the shutdown for a signal that is already on a list. */
    method AddSignal(s: Signal) returns (ok: bool)
      requires Valid() && forall i :: 0 <= i < |signals| && signals[i].stepper == s.stepper ==> signals[i] == s
      modifies this, s
      ensures ok == !old(s.active)
      ensures ok ==> Valid() && signals == [s] + old(signals)
      ensures !ok ==> signals == old(signals) && s.active
    {
      if s.active { return false; }
      s.active := true;
      signals := [s] + signals;
      return true;
    }

    /**
     The trigger stops every stepper on the list, once: no step is left to make and none is
     lost.  It works only once until it is armed again.
     */
    method DoTrigger(why: int)
      requires Valid()
      modifies this, signals, Steppers(signals)
      ensures Valid() && !canTrigger
      ensures !old(canTrigger) ==> signals == old(signals) && reason == old(reason)
      ensures !old(canTrigger) ==> forall s :: s in old(signals) ==> s.stepper.Model() == old(s.stepper.Model())
      ensures old(canTrigger) ==> signals == [] && reason == why && report
      ensures old(canTrigger) ==> forall s :: s in old(signals) ==> !s.active && Stopped(s.stepper)
      ensures old(canTrigger) ==> forall s :: s in old(signals) ==>
        && s.stepper.issued == old(s.stepper.issued) && s.stepper.net == old(s.stepper.net)
        && (old(s.stepper.Valid()) && InRange(s.stepper.net) ==> s.stepper.Valid())
    {
      if !canTrigger { return; }
      reason, canTrigger, report := why, false, true;
      ghost var all := signals;
      ghost var past := seq(|all|, i requires 0 <= i < |all| reads all, Steppers(all) => PastOf(all[i]));
      StopAll(past);
      assert forall i :: 0 <= i < |past| ==> past[i] == old(PastOf(signals[i])) && Off(old(signals)[i], past[i]);
    }

    /** Takes the signals off the list one by one and stops their steppers. */
    method StopAll(ghost past: seq<Past>)
      requires Apart(signals) && |past| == |signals| && forall i :: 0 <= i < |past| ==> On(signals[i], past[i])
      modifies this`signals, signals, Steppers(signals)
      ensures signals == [] && forall i :: 0 <= i < |past| ==> Off(old(signals)[i], past[i])
    {
      hide On, Off;
      ghost var all, k := signals, 0;
      while signals != []
        invariant 0 <= k <= |all| && signals == all[k..] && Apart(all)
        invariant forall i :: 0 <= i < k ==> Off(all[i], past[i])
        invariant forall i :: k <= i < |all| ==> On(all[i], past[i])
        decreases |signals|
      {
        var s := signals[0];
        assert s == all[k] && s.stepper in Steppers(all);
        signals := signals[1..];
        s.Fire(past[k]);
        k := k + 1;
      }
    }

    /** Takes all signals off the list and disarms. */
    method ClearSignals()
      requires Valid()
      modifies this, signals
      ensures Valid() && signals == [] && !canTrigger && !report && reason == 0
      ensures forall s :: s in old(signals) ==> !s.active
    {
      ghost var all, k := signals, 0;
      while signals != []
        invariant 0 <= k <= |all| && signals == all[k..] && Apart(all)
        invariant forall i :: 0 <= i < k ==> !all[i].active
        decreases |signals|
      {
        signals[0].active := false;
        signals := signals[1..];
        k := k + 1;
      }
      canTrigger, report, reason := false, false, 0;
    }

    /** Arms the trigger. */
    method StartSync()
      requires Valid()
      modifies this, signals
      ensures Valid() && signals == [] && canTrigger && !report
    {
      ClearSignals();
      canTrigger := true;
    }
  }
}
