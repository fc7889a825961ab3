/**
 The binary heap of the clocks at which the move slots of the micro-controller become free.
 */
module SlotHeap {
  const MAX64 := 0xffff_ffff_ffff_ffff

  function Parent(i: int): int { (i - 1) / 2 }

  ghost predicate Heap(s: seq<int>) {
    forall i :: 0 < i < |s| ==> s[Parent(i)] <= s[i]
  }

  /** In order except between place `hole` and its children, which are not below its parent. */
  ghost predicate HeapBut(s: seq<int>, hole: nat) {
    && (forall i :: 0 < i < |s| && Parent(i) != hole ==> s[Parent(i)] <= s[i])
    && (forall i :: 0 < i < |s| && Parent(i) == hole && hole > 0 ==> s[Parent(hole)] <= s[i])
  }

  lemma {:induction false} RootIsLowest(s: seq<int>, i: nat)
    requires Heap(s) && i < |s|
    ensures s[0] <= s[i]
    decreases i
  {
    if i > 0 {
      RootIsLowest(s, Parent(i));
    }
  }

  lemma SwapKeepsElements(s: seq<int>, i: nat, j: nat)
    requires i < |s| && j < |s|
    ensures multiset(s[i := s[j]][j := s[i]]) == multiset(s)
  {
    var t := s[i := s[j]][j := s[i]];
    if i == j {
      assert t == s;
    }
  }

  /** One level down: the lower child moves up and the hole takes its place. */
  lemma Descend(s: seq<int>, hole: nat, child: nat)
    requires HeapBut(s, hole) && hole < |s| && 0 < child < |s| && Parent(child) == hole && s[child] < s[hole]
    requires forall i :: 0 < i < |s| && Parent(i) == hole ==> s[child] <= s[i]
    ensures HeapBut(s[hole := s[child]][child := s[hole]], child)
  {
  }

  lemma OpenHole(s: seq<int>, value: int)
    requires Heap(s) && s != []
    ensures HeapBut(s[0 := value], 0)
  {
  }

  lemma CloseHole(s: seq<int>, hole: nat)
    requires HeapBut(s, hole) && hole < |s| && forall i :: 0 < i < |s| && Parent(i) == hole ==> s[hole] <= s[i]
    ensures Heap(s)
  {
  }

  /** The lower of the two children of a place, if the value does not belong there. */
  method LowerChild(s: seq<int>, pos: nat, value: int) returns (child: nat)
    requires pos < |s| && value <= MAX64 && forall i :: 0 <= i < |s| ==> s[i] <= MAX64
    ensures child == 0 ==> forall i :: 0 < i < |s| && Parent(i) == pos ==> value <= s[i]
    ensures child > 0 ==> child < |s| && Parent(child) == pos && s[child] < value
    ensures child > 0 ==> forall i :: 0 < i < |s| && Parent(i) == pos ==> s[child] <= s[i]
  {
    var child1, child2 := 2 * pos + 1, 2 * pos + 2;
    var clock1 := if child1 < |s| then s[child1] else MAX64;
    var clock2 := if child2 < |s| then s[child2] else MAX64;
    if value <= clock1 && value <= clock2 { return 0; }
    return if clock1 < clock2 then child1 else child2;
  }

  /** One turn of the loop: the hole moves down and the elements stay the same. */
  lemma SiftOne(s: seq<int>, a: seq<int>, pos: nat, child: nat, clock: int)
    requires pos < |a| && s == a[pos := clock] && HeapBut(s, pos)
    requires 0 < child < |s| && Parent(child) == pos && a[child] < clock
    requires forall i :: 0 < i < |s| && Parent(i) == pos ==> a[child] <= a[i]
    ensures var t := s[pos := s[child]][child := s[pos]];
            HeapBut(t, child) && multiset(t) == multiset(s) && t == a[pos := a[child]][child := clock]
  {
    hide HeapBut;
    SwapKeepsElements(s, pos, child);
    Descend(s, pos, child);
  }

  /** Replaces the root: the elements are the same but for the root, and the order is kept. */
  method HeapReplace(a: array<int>, clock: int)
    requires a.Length > 0 && Heap(a[..]) && clock <= MAX64 && forall i :: 0 <= i < a.Length ==> a[i] <= MAX64
    modifies a
    ensures Heap(a[..]) && multiset(a[..]) == multiset(old(a[..])[0 := clock])
    ensures forall i :: 0 <= i < a.Length ==> a[i] <= MAX64
  {
    hide Heap, HeapBut;
    var pos := 0;
    ghost var s := a[..][0 := clock];
    OpenHole(a[..], clock);
    while true
      invariant 0 <= pos < a.Length && |s| == a.Length && s == a[..][pos := clock] && HeapBut(s, pos)
      invariant multiset(s) == multiset(old(a[..])[0 := clock])
      invariant forall i :: 0 <= i < a.Length ==> a[i] <= MAX64
      decreases a.Length - pos
    {
      var child := LowerChild(a[..], pos, clock);
      if child == 0 {
        CloseHole(s, pos);
        a[pos] := clock;
        assert a[..] == s;
        return;
      }
      SiftOne(s, a[..], pos, child, clock);
      s := s[pos := s[child]][child := s[pos]];
      a[pos] := a[child];
      pos := child;
    }
  }
}

/**
 Rationing the move slots: each command that needs one is given the earliest clock at which
 a slot is free, and its own release clock takes that place in the heap.
 */
module Slots {

  /** A command that uses a slot: one is free from `avail`, and given back at `release`. */
  datatype Grant = Grant(avail: int, release: int)

  /** The heap before each command, and after the last. */
  ghost predicate Assigned(heaps: seq<seq<int>>, grants: seq<Grant>) {
    |heaps| == |grants| + 1 && forall k :: 0 <= k < |grants| ==> AssignedAt(heaps, grants, k)
  }

  ghost predicate AssignedAt(heaps: seq<seq<int>>, grants: seq<Grant>, k: nat)
    requires |heaps| == |grants| + 1 && k < |grants|
  {
    heaps[k] != [] && grants[k].avail == heaps[k][0]
    && multiset(heaps[k + 1]) == multiset(heaps[k][0 := grants[k].release])
  }

  /** No command is written before its slot is free. */
  ghost predicate SentWhenFree(grants: seq<Grant>, sent: seq<int>) {
    |sent| == |grants| && forall k :: 0 <= k < |grants| ==> grants[k].avail <= sent[k]
  }

  /** Commands of one queue are written in order. */
  ghost predicate SentInOrder(sent: seq<int>) {
    forall j, k :: 0 <= j < k < |sent| ==> sent[j] <= sent[k]
  }

  /** Commands that hold a slot at clock t. */
  function Holding(grants: seq<Grant>, sent: seq<int>, t: int): nat
    requires |sent| == |grants|
  {
    if grants == [] then 0
    else
      var n := |grants| - 1;
      Holding(grants[..n], sent[..n], t) + if sent[n] <= t < grants[n].release then 1 else 0
  }

  /** Entries later than t. */
  function Late(s: seq<int>, t: int): (n: nat)
    ensures n <= |s|
  {
    if s == [] then 0 else (if s[0] > t then 1 else 0) + Late(s[1..], t)
  }

  lemma {:induction false} LateAppend(a: seq<int>, b: seq<int>, t: int)
    ensures Late(a + b, t) == Late(a, t) + Late(b, t)
  {
    if a == [] {
      assert a + b == b;
    } else {
      assert (a + b)[1..] == a[1..] + b;
      LateAppend(a[1..], b, t);
    }
  }

  lemma RemoveOne(s: seq<int>, i: nat)
    requires i < |s|
    ensures multiset(s[..i] + s[i + 1..]) == multiset(s) - multiset{s[i]}
  {
    assert s == s[..i] + ([s[i]] + s[i + 1..]);
  }

  lemma LateRemove(s: seq<int>, i: nat, t: int)
    requires i < |s|
    ensures Late(s, t) == Late(s[..i] + s[i + 1..], t) + if s[i] > t then 1 else 0
  {
    assert s == s[..i] + s[i..];
    LateAppend(s[..i], s[i..], t);
    LateAppend(s[..i], s[i + 1..], t);
  }

  lemma SameRest(a: seq<int>, b: seq<int>, i: nat)
    requires multiset(a) == multiset(b) && a != [] && i < |b| && b[i] == a[0]
    ensures multiset(a[1..]) == multiset(b[..i] + b[i + 1..])
  {
    RemoveOne(a, 0);
    RemoveOne(b, i);
    assert a[..0] + a[1..] == a[1..];
  }

  /** The count does not depend on the arrangement. */
  lemma {:induction false} LateOfElements(a: seq<int>, b: seq<int>, t: int)
    requires multiset(a) == multiset(b)
    ensures Late(a, t) == Late(b, t)
  {
    if a == [] {
      assert |multiset(b)| == |b|;
    } else {
      assert a[0] in multiset(a);
      var i :| 0 <= i < |b| && b[i] == a[0];
      var rest := b[..i] + b[i + 1..];
      SameRest(a, b, i);
      LateOfElements(a[1..], rest, t);
      LateRemove(b, i, t);
    }
  }

  lemma LateReplace(s: seq<int>, x: int, t: int)
    requires s != []
    ensures Late(s[0 := x], t) == Late(s, t) + (if x > t then 1 else 0) - (if s[0] > t then 1 else 0)
  {
    assert s[0 := x][1..] == s[1..];
  }

  lemma AssignedPrefix(heaps: seq<seq<int>>, grants: seq<Grant>, n: nat)
    requires Assigned(heaps, grants) && n <= |grants|
    ensures Assigned(heaps[..n + 1], grants[..n])
  {
    var h, g := heaps[..n + 1], grants[..n];
    forall k | 0 <= k < |g| ensures AssignedAt(h, g, k) {
      assert AssignedAt(heaps, grants, k);
    }
  }

  /** The slots held at t are the entries later than t. */
  lemma {:induction false} HeldAreLate(heaps: seq<seq<int>>, grants: seq<Grant>, sent: seq<int>, t: int)
    requires Assigned(heaps, grants) && SentWhenFree(grants, sent) && forall k :: 0 <= k < |sent| ==> sent[k] <= t
    ensures Late(heaps[|grants|], t) == Late(heaps[0], t) + Holding(grants, sent, t)
  {
    if grants != [] {
      var n := |grants| - 1;
      AssignedPrefix(heaps, grants, n);
      HeldAreLate(heaps[..n + 1], grants[..n], sent[..n], t);
      assert AssignedAt(heaps, grants, n);
      LateOfElements(heaps[n + 1], heaps[n][0 := grants[n].release], t);
      LateReplace(heaps[n], grants[n].release, t);
    }
  }

  /** Commands written later than t hold nothing at t. */
  lemma {:induction false} LaterHoldNothing(grants: seq<Grant>, sent: seq<int>, n: nat, t: int)
    requires n <= |grants| == |sent| && forall k :: n <= k < |sent| ==> sent[k] > t
    ensures Holding(grants, sent, t) == Holding(grants[..n], sent[..n], t)
  {
    var m := |grants| - 1;
    if n <= m {
      LaterHoldNothing(grants[..m], sent[..m], n, t);
      assert grants[..m][..n] == grants[..n] && sent[..m][..n] == sent[..n];
    } else {
      assert grants[..n] == grants && sent[..n] == sent;
    }
  }

  /** How many commands are written by clock t. */
  function WrittenBy(sent: seq<int>, t: int): (n: nat)
    ensures n <= |sent| && forall k :: 0 <= k < n ==> sent[k] <= t
    ensures n < |sent| ==> sent[n] > t
  {
    if sent == [] then 0
    else
      var n := WrittenBy(sent[..|sent|-1], t);
      if n == |sent| - 1 && sent[n] <= t then |sent| else n
  }

  /**
   At no clock do the commands hold more slots than there are, if each is written in its turn
   and not before the clock it was given.
   */
  lemma SlotsSuffice(heaps: seq<seq<int>>, grants: seq<Grant>, sent: seq<int>, t: int)
    requires Assigned(heaps, grants) && SentWhenFree(grants, sent) && SentInOrder(sent)
    ensures Holding(grants, sent, t) <= |heaps[0]|
  {
    var n := WrittenBy(sent, t);
    LaterHoldNothing(grants, sent, n, t);
    AssignedPrefix(heaps, grants, n);
    HeldAreLate(heaps[..n + 1], grants[..n], sent[..n], t);
    SizesAgree(heaps, grants, n);
  }

  lemma {:induction false} SizesAgree(heaps: seq<seq<int>>, grants: seq<Grant>, n: nat)
    requires Assigned(heaps, grants) && n <= |grants|
    ensures |heaps[n]| == |heaps[0]|
  {
    if n > 0 {
      SizesAgree(heaps, grants, n - 1);
      assert AssignedAt(heaps, grants, n - 1);
      assert |multiset(heaps[n])| == |heaps[n]|;
      assert |multiset(heaps[n - 1][0 := grants[n - 1].release])| == |heaps[n - 1]|;
    }
  }

  /**
   The order of writing is needed: with one slot, three commands that are each written when
   their slot is free, but not in order, hold two slots at once.
   */
  lemma OutOfOrderOverruns()
    ensures var heaps, grants, sent := [[0], [100], [50], [200]],
            [Grant(0, 100), Grant(100, 50), Grant(50, 200)], [0, 100, 50];
            Assigned(heaps, grants) && SentWhenFree(grants, sent) && Holding(grants, sent, 60) > |heaps[0]|
  {
    var heaps, grants, sent := [[0], [100], [50], [200]], [Grant(0, 100), Grant(100, 50), Grant(50, 200)], [0, 100, 50];
    assert heaps[0][0 := 100] == [100] && heaps[1][0 := 50] == [50] && heaps[2][0 := 200] == [200];
    assert grants[..2][..1] == [Grant(0, 100)] && grants[..2][..1][..0] == [] && sent[..2][..1] == [0];
    assert Holding(grants[..2][..1], sent[..2][..1], 60) == 1;
    assert Holding(grants[..2], sent[..2], 60) == 1;
  }
}
