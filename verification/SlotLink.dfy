/**
 From the rationing of move slots to the wire.

 All commands of the steppers go through one command queue of the sender.  It sends them in
 order and none before the clock it was given, so the slots that the commands on the wire
 hold never exceed the slots there are.
 */
module SlotLink {
  import opened SlotHeap
  import opened Slots
  import opened StepperSync
  import L = SendLists
  import S = SendQueue

  /** The messages handed to a command queue are the first of those flushed, with their earliest clock adjusted. */
  ghost predicate Carried(flushed: seq<Msg>, submitted: seq<L.Msg>) {
    && |submitted| <= |flushed|
    && forall i :: 0 <= i < |submitted| ==>
         submitted[i] == L.Adjusted(L.Msg(flushed[i].id, submitted[i].len, flushed[i].minClock, flushed[i].reqClock))
  }

  /** The clocks at which the messages that use a slot were sent. */
  function SlotTimes(past: seq<Msg>, times: seq<int>): seq<int>
    requires |past| == |times|
  {
    if past == [] then []
    else
      var n := |past| - 1;
      SlotTimes(past[..n], times[..n]) + if past[n].minClock != 0 then [times[n]] else []
  }

  ghost predicate Sorted(times: seq<int>) {
    forall i, j :: 0 <= i < j < |times| ==> times[i] <= times[j]
  }

  /** Each message was sent in its turn and not before the clock it was given. */
  lemma {:induction false} SlotsInTurn(past: seq<Msg>, flushed: seq<Msg>, times: seq<int>)
    requires |past| == |flushed| == |times| && Sorted(times)
    requires forall i :: 0 <= i < |times| ==> flushed[i].minClock <= times[i]
    ensures SentWhenFree(Granted(past, flushed), SlotTimes(past, times)) && SentInOrder(SlotTimes(past, times))
    ensures forall k :: 0 <= k < |SlotTimes(past, times)| ==> SlotTimes(past, times)[k] <= times[|times|-1]
  {
    if past != [] {
      var n := |past| - 1;
      SlotsInTurn(past[..n], flushed[..n], times[..n]);
      assert n > 0 ==> times[..n][n-1] <= times[n];
    }
  }

  lemma {:induction false} GrantedPrefix(past: seq<Msg>, flushed: seq<Msg>, n: nat)
    requires |past| == |flushed| && n <= |past|
    ensures Granted(past[..n], flushed[..n]) <= Granted(past, flushed)
  {
    var m := |past| - 1;
    if n <= m {
      GrantedPrefix(past[..m], flushed[..m], n);
      assert past[..m][..n] == past[..n] && flushed[..m][..n] == flushed[..n];
    } else {
      assert past[..n] == past && flushed[..n] == flushed;
    }
  }

  /** What the sender knows of one of its queues. */
  lemma SentOfQueue(sender: S.Sender, q: nat)
    requires sender.Valid() && q < |sender.queues|
    ensures |sender.sent| == |sender.times| == |sender.submitted| == |sender.queues|
    ensures sender.sent[q] <= sender.submitted[q] && L.InTurn(sender.sent[q], sender.times[q], sender.clock)
  {
    hide L.Counted, L.Listed, L.Due, L.InTurn, L.SentInBlocks;
    var c := sender.queues[q];
    assert sender.submitted[q] == sender.sent[q] + c.ready + c.upcoming;
  }

  /**
   After any flushes and any sending, at no clock do the commands sent so far hold more slots
   than the micro-controller has.
   */
  lemma SlotsOnTheWire(sync: Sync, sender: S.Sender, q: nat, t: int)
    requires sync.Valid() && sender.Valid() && q < |sender.queues|
    requires |sender.submitted| == |sender.times| == |sender.queues| && Carried(sync.flushed, sender.submitted[q])
    ensures |sender.times[q]| <= |sync.past| == |sync.flushed|
    ensures var n := |sender.times[q]|; var past := sync.past[..n];
            var grants, times := Granted(past, sync.flushed[..n]), SlotTimes(past, sender.times[q]);
            |grants| == |times| && Holding(grants, times, t) <= sync.moveClocks.Length
  {
    hide Granted, SlotTimes, Heap, AssignedAt, Holding;
    SentOfQueue(sender, q);
    var times := sender.times[q];
    var n := |times|;
    var past, flushed := sync.past[..n], sync.flushed[..n];
    forall i | 0 <= i < n ensures flushed[i].minClock <= times[i] {
      assert sender.sent[q][i] == sender.submitted[q][i];
      L.AdjustedClose(L.Msg(flushed[i].id, sender.submitted[q][i].len, flushed[i].minClock, flushed[i].reqClock));
    }
    SlotsInTurn(past, flushed, times);
    GrantedPrefix(sync.past, sync.flushed, n);
    var g := Granted(past, flushed);
    AssignedPrefix(sync.heaps, sync.grants, |g|);
    assert sync.grants[..|g|] == g;
    SlotsSuffice(sync.heaps[..|g| + 1], g, SlotTimes(past, times), t);
  }
}
