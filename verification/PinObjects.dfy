/**
 The pins as objects, operation by operation.

 The ghost field `settings` lists the output settings made so far, and `Valid` is the promise
 that each risky one was, or will be, followed within the maximum.  Commands keep it whatever
 words they carry.  Timer events say exactly when they do.
 */
module PinObjects {
  import opened Word32
  import opened Wrappers
  import opened TimerOrder
  import opened PinSafety
  import D = DigitalOut
  import P = PwmOut

  class DigitalPin {
    var func: D.Func
    var scheduled: bool
    var waketime: int
    var endTime: int
    var on: bool
    var toggling: bool
    var checkEnd: bool
    var onDuration: Word
    var offDuration: Word
    var cycleTime: Word
    var mq: seq<D.Update>
    const defaultOn: bool
    const maxDuration: Word
    ghost var settings: seq<Setting>

    ghost function Model(): D.Pin
      reads this
    {
      D.Pin(func, scheduled, waketime, endTime, on, toggling, checkEnd, defaultOn, onDuration, offDuration,
            maxDuration, cycleTime, mq)
    }

    ghost predicate Valid()
      reads this
    {
      D.Kept(D.Trace(Model(), settings)) && D.Anchored(D.Trace(Model(), settings))
    }

    constructor (value: bool, defaultOn: bool, maxDuration: Word)
      ensures Valid() && Model() == D.Config(value, defaultOn, maxDuration) && settings == []
    {
      func, scheduled, waketime, endTime, on := D.LoadFunc, false, 0, 0, value;
      toggling, checkEnd, onDuration, offDuration, cycleTime, mq := false, false, 0, 0, 0, [];
      this.defaultOn, this.maxDuration := defaultOn, maxDuration;
      settings := [];
    }

    method Toggle()
      modifies this`on, this`func, this`waketime
      ensures Model() == D.ToggleEvent(old(Model()))
    {
      hide Before;
      on := !on;
      var wake := waketime;
      if on {
        wake := wake + onDuration;
      } else {
        wake := wake + offDuration;
      }
      if checkEnd && !Before(wake, endTime) {
        func := D.LoadFunc;
        wake := endTime;
      }
      waketime := wake;
    }

    /** The scheduler takes the timer in again that was called at the clock `now`.  False is a shutdown. */
    method Ring(now: int, next: int, tolerant: bool) returns (ok: bool)
      modifies this`waketime
      ensures ok == D.Rung(old(Model()), now, next, tolerant).Some?
      ensures ok ==> Model() == D.Rung(old(Model()), now, next, tolerant).value
    {
      if !scheduled { return true; }
      if Before(waketime, next) && Before(waketime, now) {
        if !tolerant { return false; }
        waketime := At(waketime, now) - TWO32;
      } else {
        waketime := At(waketime, now);
      }
      return true;
    }

    /** The output changes and stays so for its part of the cycle; a toggle that is found not to come before the
        end of the setting is replaced by the load at the end.  False is a shutdown by the scheduler. */
    method ToggleEvent(next: int, tolerant: bool) returns (ok: bool)
      requires Valid() && scheduled && func == D.ToggleFunc && waketime <= next
      modifies this
      ensures ok ==> D.Next(old(Model()), D.Fire(next, tolerant)) == Some(Model())
      ensures ok ==> (Valid() <==> old(D.ToggleJudged(D.Trace(Model(), settings), next)))
      ensures ok ==> settings == old(settings) && mq == old(mq) && scheduled
      ensures ok ==> on == !old(on) && checkEnd == old(checkEnd) && endTime == old(endTime)
      ensures var wake := old(waketime) + if old(on) then old(offDuration) else old(onDuration);
              var ended := old(checkEnd) && Low(wake - old(endTime)) < HALF;
              var asked := if ended then old(endTime) else wake;
              && (ok <==> tolerant || !TooClose(asked, old(waketime), next))
              && (ok ==> (func == D.LoadFunc <==> ended) && waketime == Rings(asked, old(waketime), next))
    {
      hide Before, InTime, D.ToggleEvent, Low, At, TooClose, D.ToggleJudged;
      ghost var t := D.Trace(Model(), settings);
      D.ToggleSafeIff(t, next, tolerant);
      D.ToggleEndsIff(Model());
      var now := waketime;
      Toggle();
      ok := Ring(now, next, tolerant);
    }

    /** When the setting just taken from the queue has to end, if it has to. */
    method EndOf(m: D.Update) returns (ok: bool, end: int, check: bool)
      ensures ok == D.EndOf(Model(), m, mq).Some?
      ensures ok ==> D.EndOf(Model(), m, mq) == Some((end, check))
    {
      end, check := 0, false;
      if m.onDuration == 0 || m.onDuration >= cycleTime {
        if (m.onDuration > 0) != defaultOn && maxDuration > 0 {
          end, check := waketime + maxDuration, true;
        }
      } else if maxDuration > 0 {
        end, check := waketime + maxDuration, true;
      }
      if mq != [] {
        if check && Before(end, mq[0].waketime) { return false, end, check; }
        end, check := At(mq[0].waketime, waketime), true;
      }
      ok := true;
    }

    method Arm(onTicks: Word)
      modifies this`func, this`scheduled, this`waketime, this`onDuration, this`offDuration
      ensures Model() == D.Arm(old(Model()), onTicks)
    {
      if !toggling {
        if !checkEnd {
          scheduled := false;
        } else {
          waketime := endTime;
        }
        return;
      }
      var wake := waketime + onTicks;
      if checkEnd && !Before(wake, endTime) {
        waketime := endTime;
        return;
      }
      func, waketime, onDuration, offDuration := D.ToggleFunc, wake, onTicks, Low(cycleTime - onTicks);
    }

    method Load() returns (ok: bool)
      modifies this`func, this`scheduled, this`waketime, this`endTime, this`on, this`toggling, this`checkEnd
      modifies this`onDuration, this`offDuration, this`mq
      ensures ok == D.LoadEvent(old(Model())).Some?
      ensures ok ==> Model() == D.LoadEvent(old(Model())).value
    {
      hide D.EndOf, D.Arm;
      if mq == [] { return false; }
      var m := mq[0];
      mq := mq[1..];
      EndDependsNotOnQueue(old(Model()), m, mq);
      var known, end, check := EndOf(m);
      if !known { return false; }
      endTime, on, toggling, checkEnd := end, m.onDuration > 0, 0 < m.onDuration < cycleTime, check;
      Arm(m.onDuration);
      return true;
    }

    /** Makes the next setting.  False is a shutdown: no update came, the one after it is found to be too late
        for this setting, or the scheduler takes the timer for one that is past and does not tolerate it. */
    method LoadEvent(next: int, tolerant: bool) returns (ok: bool)
      requires Valid() && scheduled && func == D.LoadFunc && waketime <= next
      modifies this
      ensures ok <==> && old(mq) != [] && (tolerant || !D.LoadIsPast(old(Model()), next))
                      && !(|old(mq)| > 1 && D.Limited(old(Model()), old(mq)[0].onDuration)
                           && 0 < Low(old(mq)[1].waketime - (old(waketime) + maxDuration)) <= HALF)
      ensures ok ==> mq == old(mq)[1..] && on == (old(mq)[0].onDuration > 0)
      ensures ok ==> settings == old(settings) + [Setting(old(waketime), D.Risky(old(Model()), old(mq)[0].onDuration))]
      ensures ok ==> (Valid() <==> D.LoadJudged(old(Model()), next))
      ensures ok ==> D.Next(old(Model()), D.Fire(next, tolerant)) == Some(Model())
    {
      hide Before, InTime, D.Arm, D.EndOf, Low, At, TooClose, D.LoadJudged, D.LoadEvent, D.Risky;
      ghost var t := D.Trace(Model(), settings);
      var now := waketime;
      if mq != [] {
        D.LoadRefusedIff(t.pin);
        if D.LoadEvent(t.pin).Some? {
          D.LoadSafeIff(t, next, tolerant);
          D.LoadFields(t.pin);
          D.RungFields(D.LoadEvent(t.pin).value, now, next, tolerant);
        }
        settings := settings + [Setting(now, D.Risky(t.pin, t.pin.mq[0].onDuration))];
      } else {
        D.NothingToLoad(t.pin);
      }
      ok := Load();
      if ok { ok := Ring(now, next, tolerant); }
    }

    method Push(time: Word, onTicks: Word, now: int, head: int) returns (ok: bool)
      modifies this`mq, this`endTime, this`checkEnd, this`scheduled, this`waketime, this`func
      ensures ok == D.QueueOut(old(Model()), time, onTicks, now, head).Some?
      ensures ok ==> Model() == D.QueueOut(old(Model()), time, onTicks, now, head).value
    {
      hide Before, At;
      var first := mq == [];
      mq := mq + [D.Update(time, onTicks)];
      if !first { return true; }
      if checkEnd && Before(endTime, time) { return false; }
      endTime, checkEnd := At(time, now), true;
      if !(toggling && Before(waketime, time)) {
        if Before(time, head) && Before(time, now) { return false; }
        scheduled, waketime, func := true, At(time, now), D.LoadFunc;
      }
      return true;
    }

    /** Queues an update, at the clock `now` with the list of other timers beginning at `head`; whatever its word,
        the promise is kept.  False is a shutdown: the first in the queue is found to come after the end of the
        current setting, or its timer to be too close. */
    method QueueOut(time: Word, onTicks: Word, now: int, head: int) returns (ok: bool)
      requires Valid() && (mq == [] ==> D.Current(D.Trace(Model(), settings), now, head))
      modifies this
      ensures ok <==> !(old(mq) == [] && (|| (old(checkEnd) && 0 < Low(time - old(endTime)) <= HALF)
                                          || (!(old(toggling) && Before(old(waketime), time))
                                              && TooClose(time, now, head))))
      ensures ok ==> Valid() && mq == old(mq) + [D.Update(time, onTicks)] && settings == old(settings) && on == old(on)
      ensures ok ==> D.QueueOut(old(Model()), time, onTicks, now, head) == Some(Model())
      ensures ok && old(mq) == [] && !(old(toggling) && Before(old(waketime), time)) ==>
        scheduled && func == D.LoadFunc && waketime == At(time, now)
      ensures ok && old(mq) == [] && old(toggling) && Before(old(waketime), time) ==>
        scheduled == old(scheduled) && func == old(func) && waketime == old(waketime) && endTime == At(time, now)
    {
      hide Before, InTime, Low, At, TooClose, D.QueueOut;
      ghost var t, e := D.Trace(Model(), settings), D.Queue(time, onTicks, now, head);
      D.QueueRefusedIff(Model(), time, onTicks, now, head);
      D.UpdateKeepsPromise(t, time, onTicks, now, head);
      assert settings + [] == settings;
      if D.Next(t.pin, e).Some? {
        D.CommandAnchored(t, e);
        QueueTakes(t.pin, time, onTicks, now, head);
        if mq == [] { QueueSchedules(t.pin, time, onTicks, now, head); }
      }
      ok := Push(time, onTicks, now, head);
    }

    method Write(value: bool, now: int, head: int) returns (ok: bool)
      modifies this`scheduled, this`on, this`toggling, this`waketime, this`endTime, this`func, this`checkEnd
      ensures ok == D.UpdateOut(old(Model()), value, now, head).Some?
      ensures ok ==> Model() == D.UpdateOut(old(Model()), value, now, head).value
    {
      hide Before;
      scheduled := false;
      if mq != [] { return false; }
      on, toggling := value, false;
      if value != defaultOn && maxDuration > 0 {
        waketime, endTime := now + maxDuration, now + maxDuration;
        func, checkEnd := D.LoadFunc, true;
        if Before(waketime, head) && Before(waketime, now) { return false; }
        scheduled := true;
      } else {
        checkEnd := false;
      }
      return true;
    }

    /** Sets the output at once, which is a setting.  False is a shutdown: updates are queued, or the timer of the
        safety timeout is found to be too close. */
    method UpdateOut(value: bool, now: int, head: int) returns (ok: bool)
      requires Valid() && (mq == [] ==> D.Current(D.Trace(Model(), settings), now, head))
      modifies this
      ensures ok <==> old(mq) == []
                      && !(value != defaultOn && maxDuration > 0 && TooClose(now + maxDuration, now, head))
      ensures ok ==> Valid() && on == value && settings == old(settings) + [Setting(now, value != defaultOn)]
      ensures ok ==> D.UpdateOut(old(Model()), value, now, head) == Some(Model())
    {
      hide InTime, TooClose;
      ghost var t, e := D.Trace(Model(), settings), D.Set(value, now, head);
      D.SetKeepsPromise(t, value, now, head);
      if D.Next(t.pin, e).Some? { D.CommandAnchored(t, e); }
      settings := settings + [Setting(now, value != defaultOn)];
      ok := Write(value, now, head);
    }
  }

  lemma EndDependsNotOnQueue(d: D.Pin, m: D.Update, rest: seq<D.Update>)
    ensures D.EndOf(d.(mq := rest), m, rest) == D.EndOf(d, m, rest)
  {
  }

  lemma QueueTakes(d: D.Pin, time: Word, onTicks: Word, now: int, head: int)
    requires D.QueueOut(d, time, onTicks, now, head).Some?
    ensures var n := D.QueueOut(d, time, onTicks, now, head).value;
            n.mq == d.mq + [D.Update(time, onTicks)] && n.on == d.on
  {
    hide Before, At, TooClose;
  }

  lemma QueueSchedules(d: D.Pin, time: Word, onTicks: Word, now: int, head: int)
    requires D.QueueOut(d, time, onTicks, now, head).Some? && d.mq == []
    ensures var n := D.QueueOut(d, time, onTicks, now, head).value;
            if d.toggling && Before(d.waketime, time)
            then n.scheduled == d.scheduled && n.func == d.func && n.waketime == d.waketime
                 && n.endTime == At(time, now)
            else n.scheduled && n.func == D.LoadFunc && n.waketime == At(time, now)
  {
    hide Before, At, TooClose;
  }

  class PwmPin {
    var ending: bool
    var scheduled: bool
    var waketime: int
    var value: int
    var mq: seq<P.Update>
    const defaultValue: int
    const maxDuration: Word
    ghost var settings: seq<Setting>

    ghost function Model(): P.Pin
      reads this
    {
      P.Pin(ending, scheduled, waketime, value, defaultValue, maxDuration, mq)
    }

    ghost predicate Valid()
      reads this
    {
      P.Kept(P.Trace(Model(), settings)) && P.Anchored(P.Trace(Model(), settings))
    }

    constructor (value: int, defaultValue: int, maxDuration: Word)
      ensures Valid() && Model() == P.Config(value, defaultValue, maxDuration) && settings == []
    {
      ending, scheduled, waketime, this.value, mq := false, false, 0, value, [];
      this.defaultValue, this.maxDuration := defaultValue, maxDuration;
      settings := [];
    }

    method Apply() returns (ok: bool)
      requires ending || mq != []
      modifies this`ending, this`scheduled, this`waketime, this`value, this`mq
      ensures ok == P.PwmEvent(old(Model())).Some?
      ensures ok ==> Model() == P.PwmEvent(old(Model())).value
    {
      hide Before;
      if ending { return false; }
      value := mq[0].value;
      mq := mq[1..];
      if mq == [] {
        if value == defaultValue || maxDuration == 0 {
          scheduled := false;
        } else {
          waketime, ending := waketime + maxDuration, true;
        }
        return true;
      }
      var wake := mq[0].waketime;
      if value != defaultValue && maxDuration > 0 && Before(waketime + maxDuration, wake) { return false; }
      waketime := At(wake, waketime);
      return true;
    }

    /** The scheduler takes the timer in again that was called at the clock `now`.  False is a shutdown. */
    method Ring(now: int, next: int, tolerant: bool) returns (ok: bool)
      modifies this`waketime
      ensures ok == P.Rung(old(Model()), now, next, tolerant).Some?
      ensures ok ==> Model() == P.Rung(old(Model()), now, next, tolerant).value
    {
      if !scheduled { return true; }
      if Before(waketime, next) && Before(waketime, now) {
        if !tolerant { return false; }
        waketime := At(waketime, now) - TWO32;
      } else {
        waketime := At(waketime, now);
      }
      return true;
    }

    /** Makes the next setting.  False is a shutdown: the safety timeout has come, the update after it is found to
        be too late for this setting, or the scheduler takes the timer for one that is past and does not tolerate
        it. */
    method PwmEvent(next: int, tolerant: bool) returns (ok: bool)
      requires Valid() && scheduled && (ending || mq != []) && waketime <= next
      modifies this
      ensures ok <==> && !old(ending) && (tolerant || !P.EventIsPast(old(Model()), next))
                      && !(|old(mq)| > 1 && P.Limited(old(Model()), old(mq)[0].value)
                           && 0 < Low(old(mq)[1].waketime - (old(waketime) + maxDuration)) <= HALF)
      ensures ok ==> old(mq) != [] && mq == old(mq)[1..] && value == old(mq)[0].value
      ensures ok ==> settings == old(settings) + [Setting(old(waketime), value != defaultValue)]
      ensures ok ==> (Valid() <==> P.Judged(P.Trace(old(Model()), old(settings)), P.Fire(next, tolerant)))
      ensures ok ==> P.Next(old(Model()), P.Fire(next, tolerant)) == Some(Model())
    {
      hide Before, InTime, Low, At, TooClose, P.Judged, P.PwmEvent;
      ghost var t := P.Trace(Model(), settings);
      var now := waketime;
      P.EventRefusedIff(t.pin);
      if P.PwmEvent(t.pin).Some? {
        P.EventSafeIff(t, next, tolerant);
        P.EventFields(t.pin);
        P.RungFields(P.PwmEvent(t.pin).value, now, next, tolerant);
      }
      settings := settings + P.Made(t.pin, P.Fire(next, tolerant));
      ok := Apply();
      if ok { ok := Ring(now, next, tolerant); }
    }

    method Push(time: Word, newValue: int, now: int, head: int) returns (ok: bool)
      modifies this`ending, this`scheduled, this`waketime, this`mq
      ensures ok == P.QueueOut(old(Model()), time, newValue, now, head).Some?
      ensures ok ==> Model() == P.QueueOut(old(Model()), time, newValue, now, head).value
    {
      hide Before, At;
      var first := mq == [];
      mq := mq + [P.Update(time, newValue)];
      if !first { return true; }
      if ending && Before(waketime, time) { return false; }
      if Before(time, head) && Before(time, now) { return false; }
      ending, waketime, scheduled := false, At(time, now), true;
      return true;
    }

    /** Queues an update, at the clock `now` with the list of other timers beginning at `head`; whatever its word,
        the promise is kept.  False is a shutdown: the first in the queue is found to come after the safety
        timeout, or its timer to be too close. */
    method QueueOut(time: Word, newValue: int, now: int, head: int) returns (ok: bool)
      requires Valid() && (mq == [] ==> P.Current(P.Trace(Model(), settings), now, head))
      modifies this
      ensures ok <==> !(old(mq) == [] && ((old(ending) && 0 < Low(time - old(waketime)) <= HALF)
                                          || TooClose(time, now, head)))
      ensures ok ==> Valid() && mq == old(mq) + [P.Update(time, newValue)] && settings == old(settings)
      ensures ok ==> value == old(value) && P.QueueOut(old(Model()), time, newValue, now, head) == Some(Model())
      ensures ok && old(mq) == [] ==> scheduled && !ending && waketime == At(time, now)
    {
      hide Before, InTime, Low, At, TooClose;
      P.QueueRefusedIff(Model(), time, newValue, now, head);
      P.UpdateKeepsPromise(P.Trace(Model(), settings), time, newValue, now, head);
      ok := Push(time, newValue, now, head);
    }
  }
}
