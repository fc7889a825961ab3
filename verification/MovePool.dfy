/**
 The nodes that hold queued moves: a fixed number of them, linked into a free list and into
 the queues of steppers and pins.
 */
module MoveLists {
  const NONE := -1

  /** The links from head run through the list and end. */
  ghost predicate Chain(next: seq<int>, head: int, list: seq<int>) {
    && (forall i :: 0 <= i < |list| ==> 0 <= list[i] < |next|)
    && head == (if list == [] then NONE else list[0])
    && (forall i :: 0 <= i < |list| ==> LinkAt(next, list, i))
  }

  ghost predicate LinkAt(next: seq<int>, list: seq<int>, i: int) {
    0 <= i < |list| && 0 <= list[i] < |next| && next[list[i]] == if i + 1 < |list| then list[i + 1] else NONE
  }

  ghost predicate Distinct(list: seq<int>) {
    forall i, j :: 0 <= i < j < |list| ==> list[i] != list[j]
  }

  datatype Place = Free | Held | Queued(q: nat)

  /** The list holds exactly the nodes that are in the given place, each once. */
  ghost predicate Holds(list: seq<int>, place: seq<Place>, p: Place) {
    && Distinct(list) && (forall i :: 0 <= i < |list| ==> 0 <= list[i] < |place| && place[list[i]] == p)
    && (forall m :: 0 <= m < |place| && place[m] == p ==> m in list)
  }

  // ----- changes of one node -----

  /** Nodes of a list do not notice a change of another node. */
  lemma ChainElsewhere(next: seq<int>, head: int, list: seq<int>, m: int, x: int)
    requires Chain(next, head, list) && 0 <= m < |next| && m !in list
    ensures Chain(next[m := x], head, list)
  {
    var n := next[m := x];
    forall i | 0 <= i < |list| ensures LinkAt(n, list, i) {
      assert LinkAt(next, list, i);
    }
  }

  lemma HoldsElsewhere(list: seq<int>, place: seq<Place>, p: Place, m: int, x: Place)
    requires Holds(list, place, p) && 0 <= m < |place| && place[m] != p && x != p
    ensures Holds(list, place[m := x], p) && m !in list
  {
  }

  lemma ChainPrepend(next: seq<int>, head: int, list: seq<int>, m: int)
    requires Chain(next, head, list) && 0 <= m < |next| && m !in list
    ensures Chain(next[m := head], m, [m] + list)
  {
    var l, n := [m] + list, next[m := head];
    forall i | 0 <= i < |l| ensures LinkAt(n, l, i) {
      if i > 0 { assert LinkAt(next, list, i - 1); }
    }
  }

  lemma HoldsPrepend(list: seq<int>, place: seq<Place>, p: Place, m: int)
    requires Holds(list, place, p) && 0 <= m < |place| && place[m] != p
    ensures Holds([m] + list, place[m := p], p)
  {
    var l, pl := [m] + list, place[m := p];
    forall x | 0 <= x < |pl| && pl[x] == p ensures x in l {
      if x != m { assert x in list; }
    }
  }

  lemma ChainTail(next: seq<int>, head: int, list: seq<int>)
    requires Chain(next, head, list) && list != []
    ensures Chain(next, next[head], list[1..])
  {
    assert LinkAt(next, list, 0);
    forall i | 0 <= i < |list[1..]| ensures LinkAt(next, list[1..], i) {
      assert LinkAt(next, list, i + 1);
    }
  }

  lemma HoldsTail(list: seq<int>, place: seq<Place>, p: Place, x: Place)
    requires Holds(list, place, p) && list != [] && x != p
    ensures Holds(list[1..], place[list[0] := x], p)
  {
    var pl := place[list[0] := x];
    forall m | 0 <= m < |pl| && pl[m] == p ensures m in list[1..] {
      assert m in list;
      assert list == [list[0]] + list[1..];
    }
  }

  /** A node linked behind the last one. */
  lemma ChainAppend(next: seq<int>, head: int, list: seq<int>, m: int)
    requires Chain(next, head, list) && 0 <= m < |next| && m !in list && Distinct(list)
    ensures list == [] ==> Chain(next[m := NONE], m, [m])
    ensures list != [] ==> var last := list[|list|-1]; Chain(next[m := NONE][last := m], head, list + [m])
  {
    if list == [] {
      assert LinkAt(next[m := NONE], [m], 0);
    } else {
      var l, n := list + [m], next[m := NONE][list[|list|-1] := m];
      forall i | 0 <= i < |l| ensures LinkAt(n, l, i) {
        if i < |list| { assert LinkAt(next, list, i); }
      }
    }
  }

  lemma HoldsAppend(list: seq<int>, place: seq<Place>, p: Place, m: int)
    requires Holds(list, place, p) && 0 <= m < |place| && place[m] != p
    ensures Holds(list + [m], place[m := p], p)
  {
    var l, pl := list + [m], place[m := p];
    forall x | 0 <= x < |pl| && pl[x] == p ensures x in l {
      if x != m { assert x in list; }
    }
  }

  /** All nodes in order. */
  function All(n: nat): (r: seq<int>)
    ensures |r| == n && forall i :: 0 <= i < n ==> r[i] == i
  {
    seq(n, i => i)
  }

  lemma AllFree(n: nat)
    ensures Holds(All(n), seq(n, _ => Free), Free)
  {
    forall m | 0 <= m < n ensures m in All(n) {
      assert All(n)[m] == m;
    }
  }

  lemma AllLinked(next: seq<int>)
    requires forall i :: 0 <= i < |next| ==> next[i] == if i + 1 < |next| then i + 1 else NONE
    ensures Chain(next, if |next| == 0 then NONE else 0, All(|next|))
  {
    forall i | 0 <= i < |next| ensures LinkAt(next, All(|next|), i) {
    }
  }
}

module MovePool {
  import opened MoveLists

  /** A handler that runs at shutdown: the pool's own, or that of a stepper or a pin for its queue. */
  datatype Handler = ResetPool | StepperQueue(q: nat) | PinQueue(q: nat)

  predicate OnQueue(h: Handler, q: nat) {
    h == StepperQueue(q) || h == PinQueue(q)
  }

  /** Among the handlers is one for queue q. */
  predicate Clears(order: seq<Handler>, q: nat) {
    exists i :: 0 <= i < |order| && OnQueue(order[i], q)
  }

  ghost predicate NoneHeld(place: seq<Place>) {
    forall m :: 0 <= m < |place| ==> place[m] != Held
  }

  /** All queues are well linked. */
  ghost predicate Queues(next: seq<int>, first: seq<int>, last: seq<int>, queues: seq<seq<int>>, place: seq<Place>) {
    |first| == |last| == |queues| && forall q :: 0 <= q < |queues| ==> QueueAt(next, first, last, queues, place, q)
  }

  ghost predicate QueueAt(next: seq<int>, first: seq<int>, last: seq<int>, queues: seq<seq<int>>, place: seq<Place>,
                          q: nat)
    requires q < |first| == |last| == |queues|
  {
    && Chain(next, first[q], queues[q]) && Holds(queues[q], place, Queued(q))
    && (queues[q] != [] ==> last[q] == queues[q][|queues[q]|-1])
  }

  ghost predicate FreeList(next: seq<int>, free: int, list: seq<int>, place: seq<Place>) {
    Chain(next, free, list) && Holds(list, place, Free)
  }

  /** Queues other than `but` do not notice a change of a node that is not theirs. */
  lemma QueuesElsewhere(next: seq<int>, first: seq<int>, last: seq<int>, queues: seq<seq<int>>, place: seq<Place>,
                        m: int, x: int, p: Place)
    requires Queues(next, first, last, queues, place) && 0 <= m < |next| == |place| && !place[m].Queued? && !p.Queued?
    ensures Queues(next[m := x], first, last, queues, place[m := p])
  {
    var n, pl := next[m := x], place[m := p];
    forall q | 0 <= q < |queues| ensures QueueAt(n, first, last, queues, pl, q) {
      assert QueueAt(next, first, last, queues, place, q);
      HoldsElsewhere(queues[q], place, Queued(q), m, p);
      ChainElsewhere(next, first[q], queues[q], m, x);
    }
  }

  class Pool {
    const next: array<int>
    const first: array<int>
    const last: array<int>
    var free: int
    ghost var freeList: seq<int>
    ghost var queues: seq<seq<int>>
    ghost var place: seq<Place>

    /** Every node is in exactly one place: the free list, one queue, or held by a command. */
    ghost predicate Valid()
      reads this, next, first, last
    {
      && next != first && next != last && first != last && |place| == next.Length
      && FreeList(next[..], free, freeList, place) && Queues(next[..], first[..], last[..], queues, place)
    }

    /** Gives back a node that is held. */
    method Free(m: int)
      requires Valid() && 0 <= m < next.Length && place[m] == Held
      modifies this, next
      ensures Valid() && freeList == [m] + old(freeList) && queues == old(queues)
      ensures place == old(place)[m := MoveLists.Free]
    {
      hide Chain, Holds, Queues;
      FreePrepend(next[..], free, freeList, place, m);
      QueuesElsewhere(next[..], first[..], last[..], queues, place, m, free, MoveLists.Free);
      next[m] := free;
      free := m;
      assert next[..] == old(next[..])[m := old(free)];
      freeList, place := [m] + freeList, place[m := MoveLists.Free];
    }

    constructor (moveCount: nat, queueCount: nat)
      requires moveCount > 0
      ensures Settled() && fresh(next) && fresh(first) && fresh(last) && next.Length == moveCount
      ensures first.Length == queueCount
      ensures freeList == All(moveCount) && queues == seq(queueCount, _ => [])
    {
      next := new int[moveCount](i => if i + 1 < moveCount then i + 1 else NONE);
      first := new int[queueCount](_ => NONE);
      last := new int[queueCount](_ => NONE);
      free := 0;
      new;
      freeList, queues, place := All(moveCount), seq(queueCount, _ => []), seq(moveCount, _ => MoveLists.Free);
      FreshPool(next[..], first[..], last[..]);
    }

    /** Takes a node from the free list; -1 is the shutdown when there is none. */
    method Alloc() returns (m: int)
      requires Valid()
      modifies this
      ensures Valid() && queues == old(queues) && (m == NONE <==> old(freeList) == [])
      ensures m == NONE ==> freeList == old(freeList) && place == old(place)
      ensures m != NONE ==> 0 <= m < next.Length && old(freeList) == [m] + freeList && place == old(place)[m := Held]
    {
      hide Queues, Holds;
      if free == NONE { return NONE; }
      m := free;
      assert freeList != [];
      FreeTail(next[..], free, freeList, place);
      QueuesElsewhere(next[..], first[..], last[..], queues, place, m, next[m], Held);
      assert next[..][m := next[m]] == next[..];
      free := next[m];
      assert freeList == [m] + freeList[1..];
      freeList, place := freeList[1..], place[m := Held];
    }

    /** Puts a held node at the end of a queue; says whether it is the first there. */
    method Push(q: nat, m: int) returns (isFirst: bool)
      requires Valid() && q < first.Length && 0 <= m < next.Length && place[m] == Held
      modifies this, next, first, last
      ensures Valid() && freeList == old(freeList) && |old(queues)| == first.Length && isFirst == (old(queues)[q] == [])
      ensures queues == old(queues)[q := old(queues)[q] + [m]] && place == old(place)[m := Queued(q)]
    {
      hide Chain, Holds;
      ghost var list := queues[q];
      assert QueueAt(next[..], first[..], last[..], queues, place, q);
      HeadOf(next[..], first[q], list);
      ghost var after := Linked(next[..], list, m);
      PushFree(next[..], free, freeList, place, list, m, q);
      PushQueues(next[..], first[..], last[..], queues, place, q, m);
      next[m] := NONE;
      if first[q] != NONE {
        next[last[q]] := m;
        last[q] := m;
        isFirst := false;
      } else {
        first[q], last[q] := m, m;
        isFirst := true;
      }
      assert next[..] == after;
      queues, place := queues[q := list + [m]], place[m := Queued(q)];
      assert first[..] == if isFirst then old(first[..])[q := m] else old(first[..]);
      assert last[..] == old(last[..])[q := m];
    }

    /** Takes the first node of a queue. */
    method Pop(q: nat) returns (m: int)
      requires Valid() && q < first.Length && |queues| == first.Length && queues[q] != []
      modifies this, first
      ensures Valid() && freeList == old(freeList) && 0 <= m < next.Length
      ensures old(queues)[q] == [m] + queues[q] && queues == old(queues)[q := old(queues)[q][1..]]
      ensures place == old(place)[m := Held]
    {
      hide Chain, Holds;
      ghost var list := queues[q];
      assert QueueAt(next[..], first[..], last[..], queues, place, q);
      HeadOf(next[..], first[q], list);
      m := first[q];
      PopFree(next[..], free, freeList, place, list, q);
      PopQueues(next[..], first[..], last[..], queues, place, q);
      first[q] := next[m];
      assert first[..] == old(first[..])[q := next[m]];
      assert list == [m] + list[1..];
      queues, place := queues[q := list[1..]], place[m := Held];
    }

    /** Frees all nodes of a queue, as a stepper that is stopped does. */
    method StopQueue(q: nat)
      requires Valid() && q < first.Length && |queues| == first.Length
      modifies this, next, first
      ensures Valid() && queues == old(queues)[q := []] && (old(Settled()) ==> Settled())
      ensures forall m :: 0 <= m < next.Length ==>
        place[m] == if old(place)[m] == Queued(q) then MoveLists.Free else old(place)[m]
    {
      hide Chain, Holds;
      QueuesSize(next[..], first[..], last[..], queues, place, q);
      while first[q] != NONE
        invariant Valid() && |queues| == first.Length && queues == old(queues)[q := queues[q]]
        invariant forall m :: 0 <= m < next.Length ==>
          place[m] == old(place)[m] || (old(place)[m] == Queued(q) && place[m] == MoveLists.Free)
        decreases |queues[q]|
      {
        QueuesSize(next[..], first[..], last[..], queues, place, q);
        HeadQueued(queues[q], place, q);
        var m := Pop(q);
        Free(m);
      }
      QueuesSize(next[..], first[..], last[..], queues, place, q);
      NoneQueued(queues[q], place, q);
    }

    /** Between commands every node is free or on one queue: none has been lost. */
    ghost predicate Settled()
      reads this, next, first, last
    {
      Valid() && NoneHeld(place)
    }

    /** Loads the next move or update of a queue, as steppers and pins do; false if there is none. */
    method Load(q: nat) returns (loaded: bool)
      requires Settled() && q < first.Length
      modifies this, next, first
      ensures Settled() && |old(queues)| == first.Length && (loaded <==> old(queues)[q] != [])
      ensures loaded ==>
        queues == old(queues)[q := old(queues)[q][1..]] && freeList == [old(queues)[q][0]] + old(freeList)
      ensures !loaded ==> queues == old(queues) && freeList == old(freeList)
    {
      hide Chain, Holds;
      QueuesSize(next[..], first[..], last[..], queues, place, q);
      if first[q] == NONE { return false; }
      var m := Pop(q);
      Free(m);
      return true;
    }

    /** Queues an update of a pin; false is the shutdown when no node is free. */
    method QueueUpdate(q: nat) returns (ok: bool, isFirst: bool)
      requires Settled() && q < first.Length
      modifies this, next, first, last
      ensures Settled() && (ok <==> old(freeList) != []) && |old(queues)| == first.Length
      ensures ok ==> isFirst == (old(queues)[q] == [])
      ensures ok ==> freeList == old(freeList)[1..] && queues == old(queues)[q := old(queues)[q] + [old(freeList)[0]]]
      ensures !ok ==> queues == old(queues)
    {
      hide Chain, Holds;
      QueuesSize(next[..], first[..], last[..], queues, place, q);
      var m := Alloc();
      if m == NONE { return false, false; }
      isFirst := Push(q, m);
      ok := true;
    }

    /**
     Queues a move of a stepper.  While the stepper is active the move waits on the queue; a
     stepper that was stopped drops it; an idle one loads it at once.  False is a shutdown: no
     node was free, or the count is zero, which alone leaves a node that is neither free nor
     queued.
     */
    method QueueStep(q: nat, count: nat, active: bool, needReset: bool) returns (ok: bool)
      requires Settled() && q < first.Length && |queues| == first.Length
      modifies this, next, first, last
      ensures ok <==> old(freeList) != [] && count > 0
      ensures ok || old(freeList) == [] ==> Settled()
      ensures ok && active ==>
        freeList == old(freeList)[1..] && queues == old(queues)[q := old(queues)[q] + [old(freeList)[0]]]
      ensures ok && !active && (needReset || old(queues)[q] == []) ==>
        freeList == old(freeList) && queues == old(queues)
      ensures !ok && old(freeList) != [] ==>
        Valid() && queues == old(queues) && place == old(place)[old(freeList)[0] := Held]
    {
      hide Chain, Holds;
      var m := Alloc();
      if m == NONE { return false; }
      if count == 0 { return false; }
      if active {
        var _ := Push(q, m);
      } else if needReset {
        Free(m);
      } else {
        var _ := Push(q, m);
        assert queues[q] != [];
        var n := Pop(q);
        Free(n);
        assert queues == old(queues)[q := (old(queues)[q] + [m])[1..]];
      }
      return true;
    }

    /** Rebuilds the free list with all nodes, whatever state it is in. */
    method Reset()
      requires next.Length > 0
      modifies this`free, next
      ensures Chain(next[..], free, All(next.Length))
    {
      for i := 0 to next.Length - 1
        invariant forall k :: 0 <= k < i ==> next[k] == k + 1
      {
        next[i] := i + 1;
      }
      next[next.Length - 1] := NONE;
      free := 0;
      AllLinked(next[..]);
    }

    /** Empties a queue without freeing its nodes. */
    method Clear(q: nat)
      requires q < first.Length
      modifies first
      ensures first[..] == old(first[..])[q := NONE]
    {
      first[q] := NONE;
    }

    /** Frees the nodes that a queue links to, whatever else links to them. */
    method FreeLinked(q: nat, ghost list: seq<int>)
      requires next != first && q < first.Length && Chain(next[..], first[q], list) && Distinct(list)
      modifies this`free, next, first
      ensures first[..] == old(first[..])[q := NONE]
      ensures list == [] ==> free == old(free) && next[..] == old(next[..])
    {
      ghost var rest := list;
      while first[q] != NONE
        invariant Chain(next[..], first[q], rest) && Distinct(rest) && |rest| <= |list|
        invariant first[..] == old(first[..])[q := first[q]]
        invariant list == [] ==> free == old(free) && next[..] == old(next[..])
        decreases |rest|
      {
        var m := first[q];
        ghost var before := next[..];
        ChainTail(before, m, rest);
        assert m !in rest[1..];
        ChainElsewhere(before, before[m], rest[1..], m, free);
        first[q] := next[m];
        next[m] := free;
        assert next[..] == before[m := free];
        free, rest := m, rest[1..];
      }
    }

    method Handle(h: Handler)
      requires next != first && next.Length > 0 && (!h.ResetPool? ==> h.q < first.Length)
      modifies this`free, next, first
      ensures h == ResetPool ==> Chain(next[..], free, All(next.Length)) && first[..] == old(first[..])
      ensures h != ResetPool ==>
        first[..] == old(first[..])[h.q := NONE] && next[..] == old(next[..]) && free == old(free)
    {
      match h
      case ResetPool => Reset();
      case PinQueue(q) => Clear(q);
      case StepperQueue(q) =>
        Clear(q);
        assert Chain(next[..], first[q], []);
        FreeLinked(q, []);
    }

    /**
     Runs the shutdown handlers in any order, from any state: when the pool's own and those of
     all queues have run, every node is on the free list once and the queues are empty.  A
     stepper clears its queue before it frees what the queue links to, which is then nothing.
     */
    method Shutdown(order: seq<Handler>)
      requires next != first && next != last && first != last && first.Length == last.Length && next.Length > 0
      requires ResetPool in order
      requires forall q :: 0 <= q < first.Length ==> Clears(order, q)
      requires forall i :: 0 <= i < |order| && !order[i].ResetPool? ==> order[i].q < first.Length
      modifies this, next, first
      ensures Settled() && freeList == All(next.Length) && queues == seq(first.Length, _ => [])
      ensures forall m :: 0 <= m < next.Length ==> place[m] == MoveLists.Free
    {
      hide Chain;
      for i := 0 to |order|
        invariant ResetPool in order[..i] ==> Chain(next[..], free, All(next.Length))
        invariant forall q :: 0 <= q < first.Length && Clears(order[..i], q) ==> first[q] == NONE
      {
        ghost var was := first[..];
        Handle(order[i]);
        assert order[..i + 1] == order[..i] + [order[i]];
        forall q | 0 <= q < first.Length && Clears(order[..i + 1], q) ensures first[q] == NONE {
          ClearsMore(order[..i], order[i], q);
        }
      }
      assert order[..|order|] == order;
      freeList, queues, place := All(next.Length), seq(first.Length, _ => []), seq(next.Length, _ => MoveLists.Free);
      AllFree(next.Length);
      EmptyQueues(next[..], first[..], last[..]);
    }
  }

  lemma ClearsMore(order: seq<Handler>, h: Handler, q: nat)
    requires Clears(order + [h], q)
    ensures Clears(order, q) || OnQueue(h, q)
  {
    var i :| 0 <= i < |order + [h]| && OnQueue((order + [h])[i], q);
    if i < |order| { assert OnQueue(order[i], q); }
  }

  lemma FreePrepend(next: seq<int>, free: int, list: seq<int>, place: seq<Place>, m: int)
    requires FreeList(next, free, list, place) && 0 <= m < |next| == |place| && place[m] != Free
    ensures FreeList(next[m := free], m, [m] + list, place[m := Free])
  {
    HoldsElsewhere(list, place, Free, m, place[m]);
    ChainPrepend(next, free, list, m);
    HoldsPrepend(list, place, Free, m);
  }

  lemma FreeTail(next: seq<int>, free: int, list: seq<int>, place: seq<Place>)
    requires FreeList(next, free, list, place) && list != [] && |place| == |next|
    ensures 0 <= free < |next| && list[0] == free && place[free] == Free
    ensures FreeList(next, next[free], list[1..], place[free := Held])
  {
    ChainTail(next, free, list);
    HoldsTail(list, place, Free, Held);
  }

  lemma HeadOf(next: seq<int>, head: int, list: seq<int>)
    requires Chain(next, head, list)
    ensures (head == NONE <==> list == []) && (list != [] ==> head == list[0] && 0 <= head < |next|)
    ensures forall i :: 0 <= i < |list| ==> 0 <= list[i] < |next|
  {
  }

  lemma QueuesSize(next: seq<int>, first: seq<int>, last: seq<int>, queues: seq<seq<int>>, place: seq<Place>, q: nat)
    requires Queues(next, first, last, queues, place) && q < |first|
    ensures |queues| == |first| && (first[q] == NONE <==> queues[q] == []) && Holds(queues[q], place, Queued(q))
  {
    assert QueueAt(next, first, last, queues, place, q);
  }

  lemma HeadQueued(list: seq<int>, place: seq<Place>, q: nat)
    requires Holds(list, place, Queued(q)) && list != []
    ensures 0 <= list[0] < |place| && place[list[0]] == Queued(q)
  {
  }

  lemma NoneQueued(list: seq<int>, place: seq<Place>, q: nat)
    requires Holds(list, place, Queued(q)) && list == []
    ensures forall m :: 0 <= m < |place| ==> place[m] != Queued(q)
  {
  }

  /** The links after a node was put behind a list. */
  function Linked(next: seq<int>, list: seq<int>, m: int): seq<int>
    requires 0 <= m < |next| && forall i :: 0 <= i < |list| ==> 0 <= list[i] < |next|
  {
    if list == [] then next[m := NONE] else next[m := NONE][list[|list|-1] := m]
  }

  lemma PushFree(next: seq<int>, free: int, freeList: seq<int>, place: seq<Place>, list: seq<int>, m: int, q: nat)
    requires FreeList(next, free, freeList, place) && Holds(list, place, Queued(q)) && 0 <= m < |next| == |place|
    requires place[m] == Held
    ensures (forall i :: 0 <= i < |list| ==> 0 <= list[i] < |next|)
    ensures FreeList(Linked(next, list, m), free, freeList, place[m := Queued(q)])
  {
    HoldsElsewhere(freeList, place, Free, m, Queued(q));
    ChainElsewhere(next, free, freeList, m, NONE);
    if list != [] {
      var last := list[|list|-1];
      assert place[last] == Queued(q);
      HoldsElsewhere(freeList, place, Free, last, place[last]);
      ChainElsewhere(next[m := NONE], free, freeList, last, m);
    }
  }

  lemma PushQueues(next: seq<int>, first: seq<int>, last: seq<int>, queues: seq<seq<int>>, place: seq<Place>, q: nat,
                   m: int)
    requires Queues(next, first, last, queues, place) && q < |first| && 0 <= m < |next| == |place| && place[m] == Held
    ensures (forall i :: 0 <= i < |queues[q]| ==> 0 <= queues[q][i] < |next|)
    ensures Queues(Linked(next, queues[q], m), if queues[q] == [] then first[q := m] else first, last[q := m],
                   queues[q := queues[q] + [m]], place[m := Queued(q)])
  {
    hide Chain, Holds;
    assert QueueAt(next, first, last, queues, place, q);
    HeadOf(next, first[q], queues[q]);
    var n, f, l, qs, pl := Linked(next, queues[q], m), if queues[q] == [] then first[q := m] else first, last[q := m],
                           queues[q := queues[q] + [m]], place[m := Queued(q)];
    forall k | 0 <= k < |qs| ensures QueueAt(n, f, l, qs, pl, k) {
      assert QueueAt(next, first, last, queues, place, k);
      if k == q {
        PushOne(next, first[q], queues[q], place, q, m);
      } else {
        PushOther(next, first[k], queues[k], place, k, queues[q], q, m);
      }
    }
  }

  lemma PushOne(next: seq<int>, head: int, list: seq<int>, place: seq<Place>, q: nat, m: int)
    requires Chain(next, head, list) && Holds(list, place, Queued(q)) && 0 <= m < |next| == |place| && place[m] == Held
    ensures Chain(Linked(next, list, m), if list == [] then m else head, list + [m])
    ensures Holds(list + [m], place[m := Queued(q)], Queued(q))
  {
    HoldsElsewhere(list, place, Queued(q), m, Held);
    ChainAppend(next, head, list, m);
    HoldsAppend(list, place, Queued(q), m);
    if list == [] { assert list + [m] == [m]; }
  }

  lemma PushOther(next: seq<int>, head: int, list: seq<int>, place: seq<Place>, k: nat, other: seq<int>, q: nat, m: int)
    requires Chain(next, head, list) && Holds(list, place, Queued(k)) && Holds(other, place, Queued(q)) && k != q
    requires 0 <= m < |next| == |place| && place[m] == Held
    ensures (forall i :: 0 <= i < |other| ==> 0 <= other[i] < |next|)
    ensures Chain(Linked(next, other, m), head, list) && Holds(list, place[m := Queued(q)], Queued(k))
  {
    HoldsElsewhere(list, place, Queued(k), m, Queued(q));
    ChainElsewhere(next, head, list, m, NONE);
    if other != [] {
      var last := other[|other|-1];
      assert place[last] == Queued(q);
      HoldsElsewhere(list, place, Queued(k), last, place[last]);
      ChainElsewhere(next[m := NONE], head, list, last, m);
    }
  }

  lemma PopFree(next: seq<int>, free: int, freeList: seq<int>, place: seq<Place>, list: seq<int>, q: nat)
    requires FreeList(next, free, freeList, place) && Holds(list, place, Queued(q)) && list != []
    ensures 0 <= list[0] < |place| && FreeList(next, free, freeList, place[list[0] := Held])
  {
    assert place[list[0]] == Queued(q);
    HoldsElsewhere(freeList, place, Free, list[0], Held);
  }

  lemma PopQueues(next: seq<int>, first: seq<int>, last: seq<int>, queues: seq<seq<int>>, place: seq<Place>, q: nat)
    requires Queues(next, first, last, queues, place) && q < |first| && queues[q] != [] && |next| == |place|
    ensures 0 <= first[q] < |next| && queues[q][0] == first[q]
    ensures Queues(next, first[q := next[first[q]]], last, queues[q := queues[q][1..]], place[first[q] := Held])
  {
    hide Chain, Holds;
    assert QueueAt(next, first, last, queues, place, q);
    HeadOf(next, first[q], queues[q]);
    var f, qs, pl := first[q := next[first[q]]], queues[q := queues[q][1..]], place[first[q] := Held];
    forall k | 0 <= k < |qs| ensures QueueAt(next, f, last, qs, pl, k) {
      assert QueueAt(next, first, last, queues, place, k);
      if k == q {
        ChainTail(next, first[q], queues[q]);
        HoldsTail(queues[q], place, Queued(q), Held);
      } else {
        PopOther(queues[k], place, k, queues[q], q);
      }
    }
  }

  lemma PopOther(list: seq<int>, place: seq<Place>, k: nat, other: seq<int>, q: nat)
    requires Holds(list, place, Queued(k)) && Holds(other, place, Queued(q)) && k != q && other != []
    ensures 0 <= other[0] < |place| && Holds(list, place[other[0] := Held], Queued(k))
  {
    assert place[other[0]] == Queued(q);
    HoldsElsewhere(list, place, Queued(k), other[0], Held);
  }

  lemma EmptyQueues(next: seq<int>, first: seq<int>, last: seq<int>)
    requires |first| == |last| && forall q :: 0 <= q < |first| ==> first[q] == NONE
    ensures Queues(next, first, last, seq(|first|, _ => []), seq(|next|, _ => Free))
  {
    var qs, pl := seq(|first|, _ => []), seq(|next|, _ => Free);
    forall q | 0 <= q < |qs| ensures QueueAt(next, first, last, qs, pl, q) {
    }
  }

  lemma FreshPool(next: seq<int>, first: seq<int>, last: seq<int>)
    requires |next| > 0 && |first| == |last| && forall q :: 0 <= q < |first| ==> first[q] == NONE
    requires forall i :: 0 <= i < |next| ==> next[i] == if i + 1 < |next| then i + 1 else NONE
    ensures FreeList(next, 0, All(|next|), seq(|next|, _ => Free))
    ensures Queues(next, first, last, seq(|first|, _ => []), seq(|next|, _ => Free))
  {
    AllLinked(next);
    AllFree(|next|);
    EmptyQueues(next, first, last);
  }
}
