/**
 Merging the commands of several steppers into one stream, and giving each command that
 needs a move slot the clock from which it may be sent.
 */
module StepperSync {
  import opened SlotHeap
  import opened Slots

  const MAX_CLOCK := 0x7fff_ffff_ffff_ffff

  /** While queued, a non-zero minClock says that a slot is used and when it is given back. */
  datatype Msg = Msg(id: int, minClock: nat, reqClock: nat)

  /** The message at the head of queue q goes to the batch. */
  function Pop(queues: seq<seq<Msg>>, q: nat): seq<seq<Msg>>
    requires q < |queues| && queues[q] != []
  {
    queues[q := queues[q][1..]]
  }

  ghost predicate IsLowest(queues: seq<seq<Msg>>, q: nat) {
    && q < |queues| && queues[q] != [] && queues[q][0].reqClock < MAX_CLOCK
    && forall j :: 0 <= j < |queues| && queues[j] != [] ==> queues[q][0].reqClock <= queues[j][0].reqClock
  }

  /** No queue has a message that may be picked. */
  ghost predicate NonePending(queues: seq<seq<Msg>>) {
    forall j :: 0 <= j < |queues| && queues[j] != [] ==> queues[j][0].reqClock >= MAX_CLOCK
  }

  /** Messages taken, in order, by always taking a lowest one; `picks` says from which queue. */
  ghost predicate Merged(before: seq<seq<Msg>>, picks: seq<nat>, batch: seq<Msg>, after: seq<seq<Msg>>)
    decreases |picks|
  {
    |picks| == |batch| &&
    if picks == [] then before == after
    else IsLowest(before, picks[0]) && batch[0] == before[picks[0]][0]
         && Merged(Pop(before, picks[0]), picks[1..], batch[1..], after)
  }

  /** The part of the batch that came from queue q. */
  function From(picks: seq<nat>, batch: seq<Msg>, q: nat): seq<Msg>
    requires |picks| == |batch|
  {
    if picks == [] then [] else (if picks[0] == q then [batch[0]] else []) + From(picks[1..], batch[1..], q)
  }

  /** Nothing is lost, doubled or reordered within a queue. */
  lemma {:induction false} QueuesKeepOrder(before: seq<seq<Msg>>, picks: seq<nat>, batch: seq<Msg>,
                                           after: seq<seq<Msg>>, q: nat)
    requires Merged(before, picks, batch, after) && q < |before|
    ensures |after| == |before| && before[q] == From(picks, batch, q) + after[q]
    decreases |picks|
  {
    if picks != [] {
      var next := Pop(before, picks[0]);
      QueuesKeepOrder(next, picks[1..], batch[1..], after, q);
      if picks[0] == q {
        assert before[q] == [batch[0]] + next[q];
      }
    }
  }

  lemma {:induction false} MergedSnoc(before: seq<seq<Msg>>, picks: seq<nat>, batch: seq<Msg>, after: seq<seq<Msg>>,
                                      q: nat)
    requires Merged(before, picks, batch, after) && IsLowest(after, q)
    ensures Merged(before, picks + [q], batch + [after[q][0]], Pop(after, q))
    decreases |picks|
  {
    var p, b := picks + [q], batch + [after[q][0]];
    if picks == [] {
      assert p[1..] == [] && b[1..] == [];
    } else {
      MergedSnoc(Pop(before, picks[0]), picks[1..], batch[1..], after, q);
      assert p[1..] == picks[1..] + [q] && b[1..] == batch[1..] + [after[q][0]];
    }
  }

  /** Finds the queue whose first message has the lowest required clock; the number of queues if there is none. */
  method FindLowest(queues: seq<seq<Msg>>) returns (q: nat)
    ensures q <= |queues| && (if q == |queues| then NonePending(queues) else IsLowest(queues, q))
  {
    var reqClock := MAX_CLOCK;
    q := |queues|;
    for i := 0 to |queues|
      invariant q == |queues| || q < i
      invariant q == |queues| ==> reqClock == MAX_CLOCK
      invariant q < |queues| ==> queues[q] != [] && queues[q][0].reqClock == reqClock < MAX_CLOCK
      invariant forall j :: 0 <= j < i && queues[j] != [] ==> reqClock <= queues[j][0].reqClock
    {
      if queues[i] != [] && queues[i][0].reqClock < reqClock {
        q, reqClock := i, queues[i][0].reqClock;
      }
    }
  }

  /** The grants made to the messages of a batch. */
  function Granted(taken: seq<Msg>, batch: seq<Msg>): seq<Grant>
    requires |taken| == |batch|
  {
    if taken == [] then []
    else
      var n := |taken| - 1;
      Granted(taken[..n], batch[..n]) +
      if taken[n].minClock != 0 then [Grant(batch[n].minClock, taken[n].minClock)] else []
  }

  lemma GrantedSnoc(taken: seq<Msg>, batch: seq<Msg>, m: Msg, b: Msg)
    requires |taken| == |batch|
    ensures Granted(taken + [m], batch + [b]) ==
      Granted(taken, batch) + if m.minClock != 0 then [Grant(b.minClock, m.minClock)] else []
  {
    assert (taken + [m])[..|taken|] == taken && (batch + [b])[..|batch|] == batch;
  }

  lemma {:induction false} GrantedAppend(a: seq<Msg>, b: seq<Msg>, taken: seq<Msg>, batch: seq<Msg>)
    requires |a| == |b| && |taken| == |batch|
    ensures Granted(a + taken, b + batch) == Granted(a, b) + Granted(taken, batch)
  {
    if taken == [] {
      assert a + taken == a && b + batch == b;
    } else {
      var n := |taken| - 1;
      GrantedAppend(a, b, taken[..n], batch[..n]);
      assert a + taken == a + taken[..n] + [taken[n]] && b + batch == b + batch[..n] + [batch[n]];
      GrantedSnoc(a + taken[..n], b + batch[..n], taken[n], batch[n]);
    }
  }

  lemma AssignedSnoc(heaps: seq<seq<int>>, grants: seq<Grant>, release: int, next: seq<int>)
    requires Assigned(heaps, grants) && heaps[|grants|] != []
    requires multiset(next) == multiset(heaps[|grants|][0 := release])
    ensures Assigned(heaps + [next], grants + [Grant(heaps[|grants|][0], release)])
  {
    var h, g := heaps + [next], grants + [Grant(heaps[|grants|][0], release)];
    forall k | 0 <= k < |g| ensures AssignedAt(h, g, k) {
      if k < |grants| { assert AssignedAt(heaps, grants, k); }
    }
  }

  /** Each message was given the root of the heap as it was after the grants before it. */
  ghost predicate Fair(heaps: seq<seq<int>>, start: nat, taken: seq<Msg>, batch: seq<Msg>)
    requires |taken| == |batch|
    decreases |taken|
  {
    taken == [] ||
    (var n := |taken| - 1;
     var k := start + |Granted(taken[..n], batch[..n])|;
     Fair(heaps, start, taken[..n], batch[..n]) && k < |heaps| && heaps[k] != [] && batch[n].minClock == heaps[k][0])
  }

  lemma {:induction false} FairGrows(heaps: seq<seq<int>>, more: seq<seq<int>>, start: nat, taken: seq<Msg>,
                                     batch: seq<Msg>)
    requires |taken| == |batch| && Fair(heaps, start, taken, batch)
    ensures Fair(heaps + more, start, taken, batch)
    decreases |taken|
  {
    if taken != [] { FairGrows(heaps, more, start, taken[..|taken|-1], batch[..|taken|-1]); }
  }

  lemma FairSnoc(heaps: seq<seq<int>>, more: seq<seq<int>>, start: nat, taken: seq<Msg>, batch: seq<Msg>, m: Msg,
                 b: Msg)
    requires |taken| == |batch| && Fair(heaps, start, taken, batch) && start + |Granted(taken, batch)| == |heaps| - 1
    requires heaps[|heaps|-1] != [] && b.minClock == heaps[|heaps|-1][0]
    ensures Fair(heaps + more, start, taken + [m], batch + [b])
  {
    FairGrows(heaps, more, start, taken, batch);
    assert (taken + [m])[..|taken|] == taken && (batch + [b])[..|batch|] == batch;
  }

  function Total(queues: seq<seq<Msg>>): nat {
    if queues == [] then 0 else |queues[0]| + Total(queues[1..])
  }

  lemma {:induction false} PopShrinks(queues: seq<seq<Msg>>, q: nat)
    requires q < |queues| && queues[q] != []
    ensures Total(Pop(queues, q)) < Total(queues)
  {
    if q > 0 {
      PopShrinks(queues[1..], q - 1);
      assert Pop(queues, q)[1..] == Pop(queues[1..], q - 1);
    } else {
      assert Pop(queues, 0)[1..] == queues[1..];
    }
  }

  /** The messages of a batch differ from those taken in the clock they were given. */
  ghost predicate Stamped(taken: seq<Msg>, batch: seq<Msg>) {
    |taken| == |batch| && forall i :: 0 <= i < |taken| ==> batch[i] == taken[i].(minClock := batch[i].minClock)
  }

  ghost predicate Words64(queues: seq<seq<Msg>>) {
    forall i, j :: 0 <= i < |queues| && 0 <= j < |queues[i]| ==> queues[i][j].minClock <= MAX64
  }

  class Sync {
    var queues: seq<seq<Msg>>
    const moveClocks: array<int>
    ghost var heaps: seq<seq<int>>
    ghost var grants: seq<Grant>
    ghost var past: seq<Msg>      // all messages taken so far
    ghost var flushed: seq<Msg>   // the same, with the clocks they were given

    /** Each clock given out was that of the heap at the time. */
    ghost predicate Rationed()
      reads this, moveClocks
    {
      && moveClocks.Length > 0 && Heap(moveClocks[..])
      && (forall i :: 0 <= i < moveClocks.Length ==> 0 <= moveClocks[i] <= MAX64)
      && Assigned(heaps, grants) && heaps[|grants|] == moveClocks[..] && |heaps[0]| == moveClocks.Length
    }

    /** The grants are those of all messages flushed so far. */
    ghost predicate Valid()
      reads this, moveClocks
    {
      Rationed() && Words64(queues) && Stamped(past, flushed) && grants == Granted(past, flushed)
    }

    constructor (queues: seq<seq<Msg>>, moveNum: nat)
      requires moveNum > 0 && Words64(queues)
      ensures Valid() && fresh(moveClocks) && this.queues == queues && moveClocks.Length == moveNum && flushed == []
      ensures forall i :: 0 <= i < moveNum ==> moveClocks[i] == 0
    {
      this.queues := queues;
      moveClocks := new int[moveNum](_ => 0);
      new;
      heaps, grants, past, flushed := [moveClocks[..]], [], [], [];
    }

    /** Commands of a stepper that come in between flushes wait at the end of its queue. */
    method AddCommands(q: nat, msgs: seq<Msg>)
      requires Valid() && q < |queues| && forall i :: 0 <= i < |msgs| ==> msgs[i].minClock <= MAX64
      modifies this`queues
      ensures Valid() && queues == old(queues)[q := old(queues)[q] + msgs]
    {
      queues := queues[q := queues[q] + msgs];
    }

    /** Takes the next clock from the heap for a message; the release clock of a slot takes its place. */
    method Stamp(m: Msg) returns (b: Msg)
      requires Rationed() && m.minClock <= MAX64
      modifies this`heaps, this`grants, moveClocks
      ensures Rationed() && b == m.(minClock := b.minClock) && b.minClock == old(moveClocks[0])
      ensures forall i :: 0 <= i < moveClocks.Length ==> b.minClock <= old(moveClocks[i])
      ensures grants == old(grants) + if m.minClock != 0 then [Grant(b.minClock, m.minClock)] else []
      ensures heaps == old(heaps) + if m.minClock != 0 then [moveClocks[..]] else []
    {
      hide Heap, AssignedAt;
      forall i | 0 <= i < moveClocks.Length ensures moveClocks[0] <= moveClocks[i] {
        RootIsLowest(moveClocks[..], i);
      }
      var nextAvail := moveClocks[0];
      if m.minClock != 0 {
        HeapReplace(moveClocks, m.minClock);
        NonNegative(old(moveClocks[..]), m.minClock, moveClocks[..]);
        AssignedSnoc(heaps, grants, m.minClock, moveClocks[..]);
        heaps, grants := heaps + [moveClocks[..]], grants + [Grant(nextAvail, m.minClock)];
      }
      b := m.(minClock := nextAvail);
    }

    /**
     Takes messages up to moveClock, always the one with the lowest required clock, and gives
     each the clock from which it may be sent.
     */
    method Flush(moveClock: int) returns (batch: seq<Msg>, ghost picks: seq<nat>, ghost taken: seq<Msg>)
      requires Valid()
      modifies this, moveClocks
      ensures Valid() && Merged(old(queues), picks, taken, queues) && Stamped(taken, batch)
      ensures past == old(past) + taken && flushed == old(flushed) + batch
      ensures Fair(heaps, |old(grants)|, taken, batch)
      ensures forall i :: 0 <= i < |taken| ==> taken[i].minClock == 0 || taken[i].reqClock <= moveClock
      ensures NonePending(queues) || exists q: nat ::
                IsLowest(queues, q) && queues[q][0].minClock != 0 && queues[q][0].reqClock > moveClock
    {
      hide Heap, AssignedAt, IsLowest, NonePending, Merged, Granted, Fair, Total;
      batch, picks, taken := [], [], [];
      MergedNone(queues, heaps, |grants|);
      while true
        invariant Rationed() && Words64(queues) && |picks| == |taken| && Merged(old(queues), picks, taken, queues)
        invariant Stamped(taken, batch) && past == old(past) && flushed == old(flushed)
        invariant forall i :: 0 <= i < |taken| ==> taken[i].minClock == 0 || taken[i].reqClock <= moveClock
        invariant grants == old(grants) + Granted(taken, batch) && Fair(heaps, |old(grants)|, taken, batch)
        decreases Total(queues)
      {
        var q := FindLowest(queues);
        if q == |queues| { break; }
        LowestHas(queues, q);
        var m := queues[q][0];
        if m.minClock != 0 && m.reqClock > moveClock { break; }
        ghost var before := heaps;
        var b := Stamp(m);
        FairSnoc(before, if m.minClock != 0 then [moveClocks[..]] else [], |old(grants)|, taken, batch, m, b);
        MergedSnoc(old(queues), picks, taken, queues, q);
        GrantedSnoc(taken, batch, m, b);
        PopShrinks(queues, q);
        picks, taken, batch := picks + [q], taken + [m], batch + [b];
        queues := Pop(queues, q);
      }
      GrantedAppend(past, flushed, taken, batch);
      past, flushed := past + taken, flushed + batch;
    }
  }

  lemma LowestHas(queues: seq<seq<Msg>>, q: nat)
    requires IsLowest(queues, q)
    ensures q < |queues| && queues[q] != []
  {
  }

  lemma MergedNone(queues: seq<seq<Msg>>, heaps: seq<seq<int>>, start: nat)
    ensures Merged(queues, [], [], queues) && Granted([], []) == [] && Fair(heaps, start, [], [])
  {
  }

  lemma NonNegative(past: seq<int>, release: nat, now: seq<int>)
    requires past != [] && multiset(now) == multiset(past[0 := release]) && forall i :: 0 <= i < |past| ==> past[i] >= 0
    ensures forall i :: 0 <= i < |now| ==> now[i] >= 0
  {
    forall i | 0 <= i < |now| ensures now[i] >= 0 {
      assert now[i] in multiset(past[0 := release]);
    }
  }

  /** In every run of flushes, at no clock more slots are held than the micro-controller has. */
  lemma NeverTooMany(sync: Sync, sent: seq<int>, t: int)
    requires sync.Valid() && SentWhenFree(sync.grants, sent) && SentInOrder(sent)
    ensures Holding(sync.grants, sent, t) <= sync.moveClocks.Length
  {
    SlotsSuffice(sync.heaps, sync.grants, sent, t);
  }
}
