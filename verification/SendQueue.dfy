/**
 The commands waiting to be sent: one queue for each source of commands, merged into blocks
 by the clock they are required at.
 */
module SendLists {
  const MESSAGE_MAX := 64
  const HEADER := 2
  const TRAILER := 3
  const PAYLOAD_MAX := 59
  const MAX_CLOCK := 0x7fff_ffff_ffff_ffff
  const BACKGROUND_PRIORITY_CLOCK := 0x7fff_ffff_0000_0000

  datatype Msg = Msg(id: int, len: nat, minClock: nat, reqClock: nat)

  /** A command queue: messages wait in `upcoming` for their clock, then in `ready`. */
  datatype CommandQueue = CommandQueue(ready: seq<Msg>, upcoming: seq<Msg>)

  function Bytes(ms: seq<Msg>): nat {
    if ms == [] then 0 else ms[0].len + Bytes(ms[1..])
  }

  function ReadyBytes(qs: seq<CommandQueue>): nat {
    if qs == [] then 0 else Bytes(qs[0].ready) + ReadyBytes(qs[1..])
  }

  function UpcomingBytes(qs: seq<CommandQueue>): nat {
    if qs == [] then 0 else Bytes(qs[0].upcoming) + UpcomingBytes(qs[1..])
  }

  /** A message that fits an empty block and is required before the end of time. */
  ghost predicate Sendable(m: Msg) {
    m.len <= PAYLOAD_MAX && m.reqClock < MAX_CLOCK
  }

  ghost predicate AllSendable(ms: seq<Msg>) {
    forall i :: 0 <= i < |ms| ==> Sendable(ms[i])
  }

  /** A message is not sent more than half a clock turn before it is required. */
  function Adjusted(m: Msg): Msg {
    if m.minClock + 0x8000_0000 < m.reqClock && m.reqClock != BACKGROUND_PRIORITY_CLOCK
    then m.(minClock := m.reqClock - 0x8000_0000) else m
  }

  /** The earliest clock is only ever raised, and then to exactly half a turn before the required one. */
  lemma AdjustedClose(m: Msg)
    ensures var a := Adjusted(m);
            && a == m.(minClock := a.minClock) && m.minClock <= a.minClock
            && (a.reqClock <= a.minClock + 0x8000_0000 || a.reqClock == BACKGROUND_PRIORITY_CLOCK)
            && (a.minClock != m.minClock ==> a.minClock + 0x8000_0000 == m.reqClock)
  {
  }

  function AllAdjusted(ms: seq<Msg>): (r: seq<Msg>)
    ensures |r| == |ms| && forall i :: 0 <= i < |r| ==> r[i] == Adjusted(ms[i])
  {
    seq(|ms|, i requires 0 <= i < |ms| => Adjusted(ms[i]))
  }

  lemma {:induction false} BytesAppend(a: seq<Msg>, b: seq<Msg>)
    ensures Bytes(a + b) == Bytes(a) + Bytes(b)
  {
    if a == [] {
      assert a + b == b;
    } else {
      assert (a + b)[1..] == a[1..] + b;
      BytesAppend(a[1..], b);
    }
  }

  lemma {:induction false} ReadyUpdate(qs: seq<CommandQueue>, q: nat, c: CommandQueue)
    requires q < |qs|
    ensures ReadyBytes(qs[q := c]) == ReadyBytes(qs) - Bytes(qs[q].ready) + Bytes(c.ready)
    ensures UpcomingBytes(qs[q := c]) == UpcomingBytes(qs) - Bytes(qs[q].upcoming) + Bytes(c.upcoming)
  {
    if q > 0 {
      assert qs[q := c][1..] == qs[1..][q - 1 := c];
      ReadyUpdate(qs[1..], q - 1, c);
    } else {
      assert qs[0 := c][1..] == qs[1..];
    }
  }

  /** If bytes are ready then some queue has a ready message. */
  lemma {:induction false} SomeReady(qs: seq<CommandQueue>) returns (q: nat)
    requires ReadyBytes(qs) > 0
    ensures q < |qs| && qs[q].ready != []
  {
    if qs[0].ready != [] {
      q := 0;
    } else {
      var r := SomeReady(qs[1..]);
      q := r + 1;
    }
  }

  /** What every operation keeps: the counters, the list of pending queues, and every message in its place. */
  ghost predicate Counted(qs: seq<CommandQueue>, readyBytes: int, upcomingBytes: int) {
    readyBytes == ReadyBytes(qs) && upcomingBytes == UpcomingBytes(qs)
  }

  ghost predicate Holds(c: CommandQueue) { c.ready != [] || c.upcoming != [] }

  ghost predicate Distinct(s: seq<nat>) {
    forall i, j :: 0 <= i < j < |s| ==> s[i] != s[j]
  }

  /** The pending list names each queue that holds messages, once. */
  ghost predicate Listed(qs: seq<CommandQueue>, pending: seq<nat>) {
    && (forall i :: 0 <= i < |pending| ==> pending[i] < |qs|)
    && Distinct(pending)
    && (forall q :: 0 <= q < |qs| ==> (q in pending <==> Holds(qs[q])))
  }

  lemma NoneOverdue(qs: seq<CommandQueue>, pending: seq<nat>, ackClock: int)
    requires Listed(qs, pending)
    requires forall k :: 0 <= k < |pending| && qs[pending[k]].upcoming != [] ==>
               qs[pending[k]].upcoming[0].minClock > ackClock
    ensures forall q :: 0 <= q < |qs| && qs[q].upcoming != [] ==> qs[q].upcoming[0].minClock > ackClock
  {
    forall q | 0 <= q < |qs| && qs[q].upcoming != [] ensures qs[q].upcoming[0].minClock > ackClock {
      assert Holds(qs[q]);
      assert q in pending;
    }
  }

  /** All messages handed in were sent, or are ready, or are upcoming, in that order. */
  ghost predicate Kept(qs: seq<CommandQueue>, submitted: seq<seq<Msg>>, sent: seq<seq<Msg>>) {
    && |submitted| == |qs| == |sent|
    && forall q :: 0 <= q < |qs| ==> submitted[q] == sent[q] + qs[q].ready + qs[q].upcoming
  }

  /** All ready messages fit a block and will be found. */
  ghost predicate Fitting(qs: seq<CommandQueue>) {
    forall q :: 0 <= q < |qs| ==> AllSendable(qs[q].ready)
  }

  /** What is ready may be sent by the given clock. */
  ghost predicate Due(qs: seq<CommandQueue>, clock: int) {
    forall q, i :: 0 <= q < |qs| && 0 <= i < |qs[q].ready| ==> qs[q].ready[i].minClock <= clock
  }

  lemma DueLater(qs: seq<CommandQueue>, clock: int, later: int)
    requires Due(qs, clock) && clock <= later
    ensures Due(qs, later)
  {
  }

  /** The clocks at which the messages of a queue were sent: in order, none before its earliest clock. */
  ghost predicate InTurn(sent: seq<Msg>, times: seq<int>, clock: int) {
    && |times| == |sent|
    && (forall i :: 0 <= i < |sent| ==> sent[i].minClock <= times[i] <= clock)
    && (forall i, j :: 0 <= i < j < |times| ==> times[i] <= times[j])
  }

  ghost predicate AllInTurn(sent: seq<seq<Msg>>, times: seq<seq<int>>, clock: int) {
    |times| == |sent| && forall q :: 0 <= q < |sent| ==> InTurn(sent[q], times[q], clock)
  }

  lemma InTurnLater(sent: seq<seq<Msg>>, times: seq<seq<int>>, clock: int, later: int)
    requires AllInTurn(sent, times, clock) && clock <= later
    ensures AllInTurn(sent, times, later)
  {
    forall q | 0 <= q < |sent| ensures InTurn(sent[q], times[q], later) {
      assert InTurn(sent[q], times[q], clock);
    }
  }

  lemma InTurnSnoc(sent: seq<seq<Msg>>, times: seq<seq<int>>, clock: int, q: nat, m: Msg)
    requires AllInTurn(sent, times, clock) && q < |sent| && m.minClock <= clock
    ensures AllInTurn(sent[q := sent[q] + [m]], times[q := times[q] + [clock]], clock)
  {
    var s, t := sent[q := sent[q] + [m]], times[q := times[q] + [clock]];
    forall j | 0 <= j < |s| ensures InTurn(s[j], t[j], clock) {
      assert InTurn(sent[j], times[j], clock);
    }
  }

  lemma DueTaken(qs: seq<CommandQueue>, clock: int, q: nat)
    requires Due(qs, clock) && q < |qs| && qs[q].ready != []
    ensures Due(qs[q := Taken(qs[q])], clock) && qs[q].ready[0].minClock <= clock
  {
  }

  lemma KeptUpdate(qs: seq<CommandQueue>, submitted: seq<seq<Msg>>, sent: seq<seq<Msg>>, q: nat, c: CommandQueue,
                   s: seq<Msg>)
    requires Kept(qs, submitted, sent) && q < |qs|
    requires s + c.ready + c.upcoming == sent[q] + qs[q].ready + qs[q].upcoming
    ensures Kept(qs[q := c], submitted, sent[q := s])
  {
  }

  lemma ListedUpdate(qs: seq<CommandQueue>, pending: seq<nat>, q: nat, c: CommandQueue)
    requires Listed(qs, pending) && q < |qs| && Holds(c) && Holds(qs[q])
    ensures Listed(qs[q := c], pending)
  {
  }

  function Without(pending: seq<nat>, q: nat): (r: seq<nat>) {
    if pending == [] then [] else if pending[0] == q then pending[1..] else [pending[0]] + Without(pending[1..], q)
  }

  lemma ConsDistinct(x: nat, r: seq<nat>)
    requires x !in r && Distinct(r)
    ensures Distinct([x] + r)
  {
    var c := [x] + r;
    forall i, j | 0 <= i < j < |c| ensures c[i] != c[j] {
      assert c[j] == r[j - 1];
    }
  }

  lemma {:induction false} WithoutExact(pending: seq<nat>, q: nat)
    requires Distinct(pending)
    ensures forall x :: x in Without(pending, q) <==> x in pending && x != q
    ensures Distinct(Without(pending, q))
  {
    if pending != [] {
      var rest := Without(pending[1..], q);
      assert pending == [pending[0]] + pending[1..];
      assert pending[0] !in pending[1..];
      WithoutExact(pending[1..], q);
      if pending[0] != q { ConsDistinct(pending[0], rest); }
    }
  }

  lemma ListedRemove(qs: seq<CommandQueue>, pending: seq<nat>, q: nat, c: CommandQueue)
    requires Listed(qs, pending) && q < |qs| && !Holds(c)
    ensures Listed(qs[q := c], Without(pending, q))
  {
    hide Without;
    WithoutExact(pending, q);
    var r, now := Without(pending, q), qs[q := c];
    forall i | 0 <= i < |r| ensures r[i] < |now| {
      assert r[i] in pending;
    }
    forall i | 0 <= i < |now| ensures i in r <==> Holds(now[i]) {
      assert i in pending <==> Holds(qs[i]);
    }
  }

  lemma ListedAdd(qs: seq<CommandQueue>, pending: seq<nat>, q: nat, c: CommandQueue)
    requires Listed(qs, pending) && q < |qs| && Holds(c) && !Holds(qs[q])
    ensures Listed(qs[q := c], pending + [q])
  {
    assert q !in pending;
    var r := pending + [q];
    forall i | 0 <= i < |qs| ensures i in r <==> Holds(qs[q := c][i]) {
      assert i in r <==> i in pending || i == q;
    }
  }

  /** Taking the first ready message of a queue. */
  function Taken(c: CommandQueue): CommandQueue
    requires c.ready != []
  {
    c.(ready := c.ready[1..])
  }

  lemma TakenCounts(qs: seq<CommandQueue>, readyBytes: int, upcomingBytes: int, q: nat)
    requires Counted(qs, readyBytes, upcomingBytes) && q < |qs| && qs[q].ready != []
    ensures Counted(qs[q := Taken(qs[q])], readyBytes - qs[q].ready[0].len, upcomingBytes)
  {
    ReadyUpdate(qs, q, Taken(qs[q]));
  }

  lemma TakenKept(qs: seq<CommandQueue>, submitted: seq<seq<Msg>>, sent: seq<seq<Msg>>, q: nat)
    requires Kept(qs, submitted, sent) && q < |qs| && qs[q].ready != []
    ensures |sent| == |qs| && Kept(qs[q := Taken(qs[q])], submitted, sent[q := sent[q] + [qs[q].ready[0]]])
  {
    assert sent[q] + [qs[q].ready[0]] + qs[q].ready[1..] == sent[q] + qs[q].ready;
    KeptUpdate(qs, submitted, sent, q, Taken(qs[q]), sent[q] + [qs[q].ready[0]]);
  }

  /** The first upcoming message of a queue becomes ready. */
  function Readied(c: CommandQueue): CommandQueue
    requires c.upcoming != []
  {
    CommandQueue(c.ready + [c.upcoming[0]], c.upcoming[1..])
  }

  lemma ReadiedCounts(qs: seq<CommandQueue>, readyBytes: int, upcomingBytes: int, q: nat)
    requires Counted(qs, readyBytes, upcomingBytes) && q < |qs| && qs[q].upcoming != []
    ensures Counted(qs[q := Readied(qs[q])], readyBytes + qs[q].upcoming[0].len, upcomingBytes - qs[q].upcoming[0].len)
  {
    ReadyUpdate(qs, q, Readied(qs[q]));
    BytesAppend(qs[q].ready, [qs[q].upcoming[0]]);
    assert [qs[q].upcoming[0]][1..] == [];
  }

  lemma ReadiedKept(qs: seq<CommandQueue>, submitted: seq<seq<Msg>>, sent: seq<seq<Msg>>, q: nat)
    requires Kept(qs, submitted, sent) && q < |qs| && qs[q].upcoming != []
    ensures Kept(qs[q := Readied(qs[q])], submitted, sent)
  {
    var c := qs[q];
    assert sent[q] + (c.ready + [c.upcoming[0]]) + c.upcoming[1..] == sent[q] + c.ready + c.upcoming;
    KeptUpdate(qs, submitted, sent, q, Readied(c), sent[q]);
    assert sent[q := sent[q]] == sent;
  }

  /** New messages at the end of a queue. */
  function Joined(c: CommandQueue, ms: seq<Msg>): CommandQueue {
    c.(upcoming := c.upcoming + ms)
  }

  lemma JoinedCounts(qs: seq<CommandQueue>, readyBytes: int, upcomingBytes: int, q: nat, ms: seq<Msg>)
    requires Counted(qs, readyBytes, upcomingBytes) && q < |qs|
    ensures Counted(qs[q := Joined(qs[q], ms)], readyBytes, upcomingBytes + Bytes(ms))
  {
    ReadyUpdate(qs, q, Joined(qs[q], ms));
    BytesAppend(qs[q].upcoming, ms);
  }

  lemma JoinedKept(qs: seq<CommandQueue>, submitted: seq<seq<Msg>>, sent: seq<seq<Msg>>, q: nat, ms: seq<Msg>)
    requires Kept(qs, submitted, sent) && q < |qs|
    ensures |submitted| == |qs| && Kept(qs[q := Joined(qs[q], ms)], submitted[q := submitted[q] + ms], sent)
  {
    assert sent[q] + qs[q].ready + (qs[q].upcoming + ms) == sent[q] + qs[q].ready + qs[q].upcoming + ms;
  }

  lemma {:induction false} AdjustedBytes(ms: seq<Msg>)
    ensures Bytes(AllAdjusted(ms)) == Bytes(ms)
  {
    if ms != [] {
      assert AllAdjusted(ms)[1..] == AllAdjusted(ms[1..]);
      AdjustedBytes(ms[1..]);
    }
  }

  /** The first ready message of queue q is required no later than that of any other queue. */
  ghost predicate IsLowest(qs: seq<CommandQueue>, q: nat) {
    && q < |qs| && qs[q].ready != [] && qs[q].ready[0].reqClock < MAX_CLOCK
    && forall j :: 0 <= j < |qs| && qs[j].ready != [] ==> qs[q].ready[0].reqClock <= qs[j].ready[0].reqClock
  }

  /** No queue has a message that the search would find. */
  ghost predicate NoneFound(qs: seq<CommandQueue>) {
    forall j :: 0 <= j < |qs| && qs[j].ready != [] ==> qs[j].ready[0].reqClock >= MAX_CLOCK
  }

  /** The part of a block that came from queue q. */
  function From(picks: seq<nat>, block: seq<Msg>, q: nat): seq<Msg>
    requires |picks| == |block|
  {
    if picks == [] then []
    else
      var n := |picks| - 1;
      From(picks[..n], block[..n], q) + if picks[n] == q then [block[n]] else []
  }

  lemma FromSnoc(picks: seq<nat>, block: seq<Msg>, p: nat, m: Msg, q: nat)
    requires |picks| == |block|
    ensures From(picks + [p], block + [m], q) == From(picks, block, q) + if p == q then [m] else []
  {
    assert (picks + [p])[..|picks|] == picks && (block + [m])[..|block|] == block;
  }

  /** A block that was sent: its messages and the queues they came from. */
  datatype Block = Block(picks: seq<nat>, msgs: seq<Msg>)

  /** What a list of blocks took from queue q. */
  ghost function TakenBy(blocks: seq<Block>, q: nat): seq<Msg> {
    if blocks == [] then []
    else
      var b := blocks[|blocks|-1];
      TakenBy(blocks[..|blocks|-1], q) + if |b.picks| == |b.msgs| then From(b.picks, b.msgs, q) else []
  }

  /** What each queue has sent is what the blocks took from it. */
  ghost predicate SentInBlocks(sent: seq<seq<Msg>>, blocks: seq<Block>) {
    forall q :: 0 <= q < |sent| ==> sent[q] == TakenBy(blocks, q)
  }

  lemma SentWithBlock(before: seq<seq<Msg>>, after: seq<seq<Msg>>, picks: seq<nat>, msgs: seq<Msg>, blocks: seq<Block>)
    requires |picks| == |msgs| && SentInBlocks(before, blocks) && TookFrom(before, after, picks, msgs)
    ensures SentInBlocks(after, blocks + [Block(picks, msgs)])
  {
    var more := blocks + [Block(picks, msgs)];
    assert more[..|more|-1] == blocks;
  }

  lemma {:induction false} TakenByPrefix(blocks: seq<Block>, n: nat, q: nat)
    requires n <= |blocks|
    ensures TakenBy(blocks[..n], q) <= TakenBy(blocks, q)
  {
    var m := |blocks| - 1;
    if n <= m {
      TakenByPrefix(blocks[..m], n, q);
      assert blocks[..m][..n] == blocks[..n];
    } else {
      assert blocks[..n] == blocks;
    }
  }

  /** Every queue has sent what the block took from it. */
  ghost predicate TookFrom(before: seq<seq<Msg>>, after: seq<seq<Msg>>, picks: seq<nat>, block: seq<Msg>)
    requires |picks| == |block|
  {
    |after| == |before| && forall q :: 0 <= q < |after| ==> after[q] == before[q] + From(picks, block, q)
  }

  lemma TookSnoc(before: seq<seq<Msg>>, after: seq<seq<Msg>>, picks: seq<nat>, block: seq<Msg>, p: nat, m: Msg)
    requires |picks| == |block| && TookFrom(before, after, picks, block) && p < |after|
    ensures TookFrom(before, after[p := after[p] + [m]], picks + [p], block + [m])
  {
    var now := after[p := after[p] + [m]];
    forall q | 0 <= q < |now| ensures now[q] == before[q] + From(picks + [p], block + [m], q) {
      FromSnoc(picks, block, p, m, q);
      assert after[q] == before[q] + From(picks, block, q);
    }
  }

  /** A block is built by taking, each time, a message that is required first. */
  ghost predicate Built(before: seq<CommandQueue>, picks: seq<nat>, block: seq<Msg>, after: seq<CommandQueue>)
    decreases |picks|
  {
    |picks| == |block| &&
    if picks == [] then before == after
    else
      && IsLowest(before, picks[0]) && block[0] == before[picks[0]].ready[0]
      && Built(before[picks[0] := Taken(before[picks[0]])], picks[1..], block[1..], after)
  }

  lemma {:induction false} BuiltSnoc(before: seq<CommandQueue>, picks: seq<nat>, block: seq<Msg>,
                                     after: seq<CommandQueue>, q: nat)
    requires Built(before, picks, block, after) && IsLowest(after, q)
    ensures Built(before, picks + [q], block + [after[q].ready[0]], after[q := Taken(after[q])])
    decreases |picks|
  {
    var p, b := picks + [q], block + [after[q].ready[0]];
    if picks == [] {
      assert p[1..] == [] && b[1..] == [];
    } else {
      BuiltSnoc(before[picks[0] := Taken(before[picks[0]])], picks[1..], block[1..], after, q);
      assert p[1..] == picks[1..] + [q] && b[1..] == block[1..] + [after[q].ready[0]];
    }
  }

  /** Messages of a queue have become ready, in order, when their clock allows it. */
  ghost predicate Advanced(before: CommandQueue, after: CommandQueue, ackClock: int) {
    && after.ready + after.upcoming == before.ready + before.upcoming && |before.ready| <= |after.ready|
    && forall i :: |before.ready| <= i < |after.ready| ==> after.ready[i].minClock <= ackClock
  }

  lemma AdvancedNot(c: CommandQueue, ackClock: int)
    ensures Advanced(c, c, ackClock)
  {
  }

  lemma AdvancedOne(before: CommandQueue, c: CommandQueue, ackClock: int)
    requires Advanced(before, c, ackClock) && c.upcoming != [] && c.upcoming[0].minClock <= ackClock
    ensures Advanced(before, Readied(c), ackClock)
  {
    assert Readied(c).ready + Readied(c).upcoming == c.ready + c.upcoming;
  }

  lemma BuiltNone(qs: seq<CommandQueue>, sent: seq<seq<Msg>>)
    ensures Built(qs, [], [], qs) && TookFrom(sent, sent, [], [])
  {
    assert forall q :: 0 <= q < |sent| ==> sent[q] + [] == sent[q];
  }
}

module SendQueue {
  import opened SendLists

  class Sender {
    var queues: seq<CommandQueue>
    var pending: seq<nat>
    var readyBytes: int
    var upcomingBytes: int
    ghost var submitted: seq<seq<Msg>>
    ghost var sent: seq<seq<Msg>>
    ghost var times: seq<seq<int>>  // the clock reached when each message was sent
    ghost var clock: int            // the latest clock reached
    ghost var blocks: seq<Block>    // the blocks sent

    /** Counters, pending list, order and clocks, also while a block is being filled. */
    ghost predicate Coherent()
      reads this
    {
      && Counted(queues, readyBytes, upcomingBytes) && Listed(queues, pending)
      && Kept(queues, submitted, sent) && Due(queues, clock) && AllInTurn(sent, times, clock)
    }

    ghost predicate Valid()
      reads this
    {
      Coherent() && SentInBlocks(sent, blocks)
    }

    constructor (n: nat)
      ensures Valid() && queues == seq(n, _ => CommandQueue([], [])) && submitted == seq(n, _ => []) && blocks == []
    {
      queues, submitted, sent := seq(n, _ => CommandQueue([], [])), seq(n, _ => []), seq(n, _ => []);
      pending, readyBytes, upcomingBytes := [], 0, 0;
      times, clock, blocks := seq(n, _ => []), 0, [];
      new;
      NothingCounted(queues);
    }

    /** Adds a batch to a queue; a batch without bytes is dropped. */
    method SendBatch(q: nat, msgs: seq<Msg>)
      requires Valid() && q < |queues|
      modifies this
      ensures Valid() && sent == old(sent) && times == old(times) && blocks == old(blocks)
      ensures readyBytes == old(readyBytes)
      ensures |queues| == |old(queues)|
      ensures Bytes(msgs) == 0 ==> submitted == old(submitted) && queues == old(queues)
      ensures Bytes(msgs) > 0 ==> submitted == old(submitted)[q := old(submitted)[q] + AllAdjusted(msgs)]
      ensures Bytes(msgs) > 0 ==> queues == old(queues)[q := Joined(old(queues)[q], AllAdjusted(msgs))]
    {
      hide Counted, Listed, Kept, Bytes, AllInTurn;
      var list, len := AdjustBatch(msgs);
      if len == 0 { return; }
      AdjustedBytes(msgs);
      BytesNone();
      JoinedCounts(queues, readyBytes, upcomingBytes, q, list);
      JoinedKept(queues, submitted, sent, q, list);
      var c := Joined(queues[q], list);
      if queues[q].ready == [] && queues[q].upcoming == [] {
        ListedAdd(queues, pending, q, c);
        pending := pending + [q];
      } else {
        ListedUpdate(queues, pending, q, c);
      }
      submitted := submitted[q := submitted[q] + list];
      queues, upcomingBytes := queues[q := c], upcomingBytes + len;
    }

    /** Makes ready what may be sent by now in one queue. */
    method ReadyOne(q: nat, ackClock: int)
      requires Coherent() && q < |queues| && Holds(queues[q]) && ackClock <= clock
      modifies this`queues, this`readyBytes, this`upcomingBytes
      ensures Coherent() && |queues| == |old(queues)|
      ensures forall j :: 0 <= j < |queues| && j != q ==> queues[j] == old(queues)[j]
      ensures Advanced(old(queues)[q], queues[q], ackClock)
      ensures queues[q].upcoming != [] ==> queues[q].upcoming[0].minClock > ackClock
    {
      hide Counted, Listed, Kept, Advanced, AllInTurn, Due;
      AdvancedNot(queues[q], ackClock);
      while queues[q].upcoming != [] && ackClock >= queues[q].upcoming[0].minClock
        invariant Coherent() && |queues| == |old(queues)| && Holds(queues[q])
        invariant forall j :: 0 <= j < |queues| && j != q ==> queues[j] == old(queues)[j]
        invariant Advanced(old(queues)[q], queues[q], ackClock)
        decreases |queues[q].upcoming|
      {
        var m := queues[q].upcoming[0];
        ReadiedCounts(queues, readyBytes, upcomingBytes, q);
        ReadiedKept(queues, submitted, sent, q);
        ListedUpdate(queues, pending, q, Readied(queues[q]));
        ReadiedDue(queues, clock, q);
        AdvancedOne(old(queues)[q], queues[q], ackClock);
        queues := queues[q := Readied(queues[q])];
        upcomingBytes, readyBytes := upcomingBytes - m.len, readyBytes + m.len;
      }
    }

    /** Makes ready what may be sent by now: in every queue all messages up to the first that has to wait. */
    method MakeReady(ackClock: int)
      requires Valid()
      modifies this`queues, this`readyBytes, this`upcomingBytes, this`clock
      ensures Valid() && |queues| == |old(queues)| && old(clock) <= clock && ackClock <= clock
      ensures forall q :: 0 <= q < |queues| ==> Advanced(old(queues)[q], queues[q], ackClock)
      ensures forall q :: 0 <= q < |queues| && queues[q].upcoming != [] ==> queues[q].upcoming[0].minClock > ackClock
    {
      hide Counted, Kept, Advanced, AllInTurn, SentInBlocks, Due;
      ghost var later := if clock < ackClock then ackClock else clock;
      DueLater(queues, clock, later);
      InTurnLater(sent, times, clock, later);
      clock := later;
      forall q | 0 <= q < |queues| ensures Advanced(queues[q], queues[q], ackClock) {
        AdvancedNot(queues[q], ackClock);
      }
      for i := 0 to |pending|
        invariant Coherent() && |queues| == |old(queues)| && clock == later
        invariant forall q :: 0 <= q < |queues| ==> Advanced(old(queues)[q], queues[q], ackClock)
        invariant forall k :: i <= k < |pending| ==> queues[pending[k]] == old(queues)[pending[k]]
        invariant forall k :: 0 <= k < i && queues[pending[k]].upcoming != [] ==>
          queues[pending[k]].upcoming[0].minClock > ackClock
      {
        assert pending[i] in pending;
        ReadyOne(pending[i], ackClock);
      }
      NoneOverdue(queues, pending, ackClock);
    }

    /** Finds the queue whose first ready message is required first; the number of queues if there is none
        that is required before the end of time. */
    method FindLowest() returns (q: nat)
      requires Coherent()
      ensures q <= |queues| && (if q == |queues| then NoneFound(queues) else IsLowest(queues, q))
    {
      hide Counted, Kept, Due, AllInTurn;
      var minClock := MAX_CLOCK;
      q := |queues|;
      for i := 0 to |pending|
        invariant q == |queues| ==> minClock == MAX_CLOCK
        invariant q <= |queues|
        invariant q < |queues| ==> queues[q].ready != [] && queues[q].ready[0].reqClock == minClock < MAX_CLOCK
        invariant forall k :: 0 <= k < i && queues[pending[k]].ready != [] ==>
          minClock <= queues[pending[k]].ready[0].reqClock
      {
        var c := queues[pending[i]];
        if c.ready != [] && c.ready[0].reqClock < minClock {
          q, minClock := pending[i], c.ready[0].reqClock;
        }
      }
      forall j | 0 <= j < |queues| && queues[j].ready != [] ensures minClock <= queues[j].ready[0].reqClock {
        assert Holds(queues[j]);
        assert j in pending;
      }
    }

    /** Takes the first ready message of a queue into a block. */
    method TakeFirst(q: nat) returns (m: Msg)
      requires Coherent() && q < |queues| && queues[q].ready != []
      modifies this
      ensures Coherent() && m == old(queues)[q].ready[0] && queues == old(queues)[q := Taken(old(queues)[q])]
      ensures submitted == old(submitted) && |old(sent)| == |queues| && sent == old(sent)[q := old(sent)[q] + [m]]
      ensures readyBytes == old(readyBytes) - m.len && upcomingBytes == old(upcomingBytes) && clock == old(clock)
      ensures |old(times)| == |queues| && times == old(times)[q := old(times)[q] + [clock]] && blocks == old(blocks)
    {
      hide Counted, Listed, Kept, Without, Due, AllInTurn;
      m := queues[q].ready[0];
      var c := Taken(queues[q]);
      TakenCounts(queues, readyBytes, upcomingBytes, q);
      TakenKept(queues, submitted, sent, q);
      DueTaken(queues, clock, q);
      SameSize(queues, submitted, sent, times, clock);
      InTurnSnoc(sent, times, clock, q, m);
      if c.ready == [] && c.upcoming == [] {
        ListedRemove(queues, pending, q, c);
        pending := Without(pending, q);
      } else {
        ListedUpdate(queues, pending, q, c);
      }
      sent, times := sent[q := sent[q] + [m]], times[q := times[q] + [clock]];
      queues, readyBytes := queues[q := c], readyBytes - m.len;
    }

    /**
     Fills a block with ready messages, each time the one required first, until the next one
     does not fit.  What each queue has sent grows by what the block took from it.  False is
     the access to a message that was not found, when all that is ready is required at the end
     of time; messages that fit a block and are required before are all found.
     */
    method BuildBlock() returns (ok: bool, block: seq<Msg>, len: nat, ghost picks: seq<nat>)
      requires Valid()
      modifies this
      ensures Valid() && submitted == old(submitted) && upcomingBytes == old(upcomingBytes) && clock == old(clock)
      ensures |picks| == |block| && Built(old(queues), picks, block, queues)
      ensures TookFrom(old(sent), sent, picks, block) && blocks == old(blocks) + [Block(picks, block)]
      ensures ok ==> len == HEADER + Bytes(block) + TRAILER <= MESSAGE_MAX
      ensures ok ==> readyBytes == 0 || exists q: nat ::
              IsLowest(queues, q) && len + queues[q].ready[0].len > MESSAGE_MAX
      ensures !ok ==> readyBytes != 0 && NoneFound(queues)
      ensures Fitting(old(queues)) ==> ok && (old(readyBytes) > 0 ==> block != [])
    {
      hide Counted, Listed, Kept, Fitting, Built, IsLowest, Bytes, Due, AllInTurn, TookFrom, NoneFound, SentInBlocks;
      block, picks, len := [], [], HEADER;
      BuiltNone(queues, sent);
      BytesNone();
      while readyBytes != 0
        invariant Coherent() && submitted == old(submitted)
        invariant upcomingBytes == old(upcomingBytes) && clock == old(clock)
        invariant blocks == old(blocks)
        invariant |picks| == |block| && Built(old(queues), picks, block, queues)
        invariant TookFrom(old(sent), sent, picks, block)
        invariant len == HEADER + Bytes(block) <= MESSAGE_MAX - TRAILER
        invariant block == [] ==> len == HEADER
        invariant old(readyBytes) > 0 && readyBytes == 0 ==> block != []
        invariant Fitting(old(queues)) ==> Fitting(queues)
        decreases Count(queues)
      {
        var q := FindLowest();
        if q == |queues| {
          if Fitting(queues) { FittingFound(queues, readyBytes, upcomingBytes); }
          SentWithBlock(old(sent), sent, picks, block, blocks);
          blocks := blocks + [Block(picks, block)];
          return false, block, len, picks;
        }
        LowestReady(queues, q);
        var m := queues[q].ready[0];
        if len + m.len > MESSAGE_MAX - TRAILER {
          if Fitting(queues) { FirstFits(queues, q); }
          break;
        }
        CountShrinks(queues, q);
        BuiltSnoc(old(queues), picks, block, queues, q);
        SameSize(queues, submitted, sent, times, clock);
        TookSnoc(old(sent), sent, picks, block, q, m);
        BytesOne(block, m);
        if Fitting(queues) { TakenFits(queues, q); }
        m := TakeFirst(q);
        block, picks, len := block + [m], picks + [q], len + m.len;
      }
      SentWithBlock(old(sent), sent, picks, block, blocks);
      blocks := blocks + [Block(picks, block)];
      len := len + TRAILER;
      ok := true;
    }
  }

  /** Messages that are ready. */
  function Count(qs: seq<CommandQueue>): nat {
    if qs == [] then 0 else |qs[0].ready| + Count(qs[1..])
  }

  lemma {:induction false} CountShrinks(qs: seq<CommandQueue>, q: nat)
    requires q < |qs| && qs[q].ready != []
    ensures Count(qs[q := Taken(qs[q])]) < Count(qs)
  {
    if q > 0 {
      CountShrinks(qs[1..], q - 1);
      assert qs[q := Taken(qs[q])][1..] == qs[1..][q - 1 := Taken(qs[q])];
    } else {
      assert qs[0 := Taken(qs[0])][1..] == qs[1..];
    }
  }

  lemma LowestReady(qs: seq<CommandQueue>, q: nat)
    requires IsLowest(qs, q)
    ensures q < |qs| && qs[q].ready != []
  {
  }

  /** While bytes are ready, and every message is required before the end of time, one is found. */
  lemma FittingFound(qs: seq<CommandQueue>, readyBytes: int, upcomingBytes: int)
    requires Counted(qs, readyBytes, upcomingBytes) && readyBytes != 0 && Fitting(qs)
    ensures !NoneFound(qs)
  {
    var j := SomeReady(qs);
    assert Sendable(qs[j].ready[0]);
  }

  lemma SameSize(qs: seq<CommandQueue>, submitted: seq<seq<Msg>>, sent: seq<seq<Msg>>, times: seq<seq<int>>, clock: int)
    requires Kept(qs, submitted, sent) && AllInTurn(sent, times, clock)
    ensures |sent| == |times| == |qs|
  {
  }

  /** An empty block has room for any message. */
  lemma FirstFits(qs: seq<CommandQueue>, q: nat)
    requires Fitting(qs) && q < |qs| && qs[q].ready != []
    ensures HEADER + qs[q].ready[0].len <= MESSAGE_MAX - TRAILER
  {
    assert Sendable(qs[q].ready[0]);
  }

  lemma BytesOne(block: seq<Msg>, m: Msg)
    ensures Bytes(block + [m]) == Bytes(block) + m.len
  {
    BytesAppend(block, [m]);
    assert [m][1..] == [];
  }

  lemma ReadiedDue(qs: seq<CommandQueue>, clock: int, q: nat)
    requires Due(qs, clock) && q < |qs| && qs[q].upcoming != [] && qs[q].upcoming[0].minClock <= clock
    ensures Due(qs[q := Readied(qs[q])], clock)
  {
  }

  lemma TakenFits(qs: seq<CommandQueue>, q: nat)
    requires Fitting(qs) && q < |qs| && qs[q].ready != []
    ensures Fitting(qs[q := Taken(qs[q])])
  {
  }

  /** Sets the earliest clocks of a batch and adds up its bytes. */
  method AdjustBatch(msgs: seq<Msg>) returns (list: seq<Msg>, len: nat)
    ensures list == AllAdjusted(msgs) && len == Bytes(msgs)
  {
    hide Adjusted;
    list, len := [], 0;
    for i := 0 to |msgs|
      invariant list == AllAdjusted(msgs)[..i] && len == Bytes(msgs[..i])
    {
      BytesSnoc(msgs, i);
      list, len := list + [Adjusted(msgs[i])], len + msgs[i].len;
    }
    assert msgs[..|msgs|] == msgs;
  }

  lemma NothingCounted(qs: seq<CommandQueue>)
    requires forall q :: 0 <= q < |qs| ==> qs[q] == CommandQueue([], [])
    ensures Counted(qs, 0, 0)
  {
    if qs != [] { NothingCounted(qs[1..]); }
  }

  lemma BytesSnoc(ms: seq<Msg>, i: nat)
    requires i < |ms|
    ensures Bytes(ms[..i + 1]) == Bytes(ms[..i]) + ms[i].len
  {
    BytesAppend(ms[..i], [ms[i]]);
    assert ms[..i + 1] == ms[..i] + [ms[i]] && [ms[i]][1..] == [];
  }

  lemma BytesNone()
    ensures Bytes([]) == 0
  {
  }
}
