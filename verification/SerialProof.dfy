/** Every step of the link keeps its invariant. */
module SerialProof {
  import opened SerialHost
  import opened SerialLog
  import opened SerialLink

  // ----- responses -----

  lemma {:induction false} SubsequenceDrop(x: seq<Payload>, e: Payload, y: seq<Payload>, b: seq<Payload>)
    requires Subsequence(x + [e] + y, b)
    ensures Subsequence(x + y, b)
    decreases |b|
  {
    var a, c := x + [e] + y, b[..|b|-1];
    if Subsequence(a, c) {
      SubsequenceDrop(x, e, y, c);
    } else if y == [] {
      assert a[..|a|-1] == x && x + y == x;
    } else {
      var z := y[..|y|-1];
      assert a[..|a|-1] == x + [e] + z && (x + y)[..|x + y|-1] == x + z;
      SubsequenceDrop(x, e, z, c);
    }
  }

  lemma SubsequenceBoth(a: seq<Payload>, b: seq<Payload>, e: Payload)
    requires Subsequence(a, b)
    ensures Subsequence(a + [e], b + [e])
  {
    assert (a + [e])[..|a|] == a && (b + [e])[..|b|] == b;
  }

  lemma {:induction false} OnTheWayAppend(a: seq<Message>, b: seq<Message>)
    ensures OnTheWay(a + b) == OnTheWay(a) + OnTheWay(b)
  {
    if b == [] {
      assert a + b == a;
    } else {
      assert (a + b)[..|a + b|-1] == a + b[..|b|-1];
      OnTheWayAppend(a, b[..|b|-1]);
    }
  }

  lemma OnTheWayOne(m: Message)
    ensures OnTheWay([m]) == if m.data then [m.payload] else []
  {
    assert [m][..0] == [];
  }

  lemma RelayedLoss(received: seq<Entry>, toHost: seq<Message>, responses: seq<Payload>, at: nat)
    requires Relayed(received, toHost, responses) && at < |toHost|
    ensures Relayed(received, Without(toHost, at), responses)
  {
    hide Subsequence, Handed, OnTheWay;
    var x, y, m := toHost[..at], toHost[at + 1..], toHost[at];
    assert toHost == x + [m] + y;
    OnTheWayAppend(x + [m], y);
    OnTheWayAppend(x, [m]);
    OnTheWayAppend(x, y);
    OnTheWayOne(m);
    if m.data {
      assert Handed(received) + (OnTheWay(x) + [m.payload] + OnTheWay(y)) ==
        Handed(received) + OnTheWay(x) + [m.payload] + OnTheWay(y);
      SubsequenceDrop(Handed(received) + OnTheWay(x), m.payload, OnTheWay(y), responses);
      assert Handed(received) + OnTheWay(x) + OnTheWay(y) == Handed(received) + (OnTheWay(x) + OnTheWay(y));
    } else {
      assert OnTheWay(x) + [] == OnTheWay(x);
    }
  }

  lemma RelayedMore(received: seq<Entry>, toHost: seq<Message>, responses: seq<Payload>, m: Message)
    requires Relayed(received, toHost, responses)
    ensures Relayed(received, toHost + [m], responses + if m.data then [m.payload] else [])
  {
    hide Subsequence, Handed, OnTheWay;
    OnTheWayAppend(toHost, [m]);
    OnTheWayOne(m);
    if m.data {
      SubsequenceBoth(Handed(received) + OnTheWay(toHost), responses, m.payload);
      assert Handed(received) + OnTheWay(toHost) + [m.payload] == Handed(received) + (OnTheWay(toHost) + [m.payload]);
    } else {
      assert OnTheWay(toHost) + [] == OnTheWay(toHost) && responses + [] == responses;
    }
  }

  lemma {:induction false} HandedNotices(received: seq<Entry>, notices: seq<Entry>)
    requires forall i :: 0 <= i < |notices| ==> notices[i].Notice?
    ensures Handed(received + notices) == Handed(received)
  {
    var all := received + notices;
    if notices == [] {
      assert all == received;
    } else {
      assert all[..|all|-1] == received + notices[..|notices|-1];
      HandedNotices(received, notices[..|notices|-1]);
    }
  }

  lemma RelayedDelivery(received: seq<Entry>, notices: seq<Entry>, toHost: seq<Message>, responses: seq<Payload>,
                        data: seq<Entry>)
    requires Relayed(received, toHost, responses) && toHost != []
    requires forall i :: 0 <= i < |notices| ==> notices[i].Notice?
    requires if toHost[0].data then |data| == 1 && data[0].Data? && data[0].payload == toHost[0].payload else data == []
    ensures Relayed(received + notices + data, toHost[1..], responses)
  {
    hide Subsequence, OnTheWay;
    var m := toHost[0];
    assert toHost == [m] + toHost[1..];
    OnTheWayAppend([m], toHost[1..]);
    OnTheWayOne(m);
    HandedNotices(received, notices);
    var all := received + notices + data;
    if m.data {
      assert all[..|all|-1] == received + notices;
      assert Handed(received) + [m.payload] + OnTheWay(toHost[1..]) ==
        Handed(received) + ([m.payload] + OnTheWay(toHost[1..]));
    } else {
      assert all == received + notices;
      assert [] + OnTheWay(toHost[1..]) == OnTheWay(toHost[1..]);
    }
  }

  // ----- losses -----

  lemma LoseFrameKeeps(s: System, at: nat)
    requires Inv(s) && at < |s.toMcu|
    ensures Inv(s.(toMcu := Without(s.toMcu, at)))
  {
    hide HostInv, Dispatched, Replies, NoticesInOrder, GoodFrame, Relayed;
    var t := Without(s.toMcu, at);
    assert forall i :: 0 <= i < |t| ==> t[i] == s.toMcu[if i < at then i else i + 1];
  }

  lemma LoseMessageKeeps(s: System, at: nat)
    requires Inv(s) && at < |s.toHost|
    ensures Inv(s.(toHost := Without(s.toHost, at)))
  {
    hide HostInv, Dispatched, Wire, NoticesInOrder, GoodMessage, Relayed;
    RelayedLoss(s.host.received, s.toHost, s.responses, at);
    var t := Without(s.toHost, at);
    assert forall i :: 0 <= i < |t| ==> t[i] == s.toHost[if i < at then i else i + 1];
  }

  // ----- the micro-controller -----

  lemma MessageInOrder(toHost: seq<Message>, m: Message, receiveSeq: nat, next: nat, heard: nat, finished: int)
    requires Replies(toHost, receiveSeq, next, heard, finished)
    requires GoodMessage(m, receiveSeq, next, heard, finished) && m.next == next && m.done == finished
    ensures Replies(toHost + [m], receiveSeq, next, heard, finished)
  {
  }

  lemma SendMessageKeeps(s: System, m: Message)
    requires Inv(s) && m.next == s.mcu.next && m.done == Finished(s.mcu) && m.nibble == s.mcu.nibble
    requires !m.data ==> !s.mcu.busy
    ensures Inv(s.(toHost := s.toHost + [m], responses := s.responses + if m.data then [m.payload] else []))
  {
    hide HostInv, Wire, NoticesInOrder, Relayed, InOrder;
    MessageInOrder(s.toHost, m, s.host.receiveSeq, s.mcu.next, s.heard, Finished(s.mcu));
    RelayedMore(s.host.received, s.toHost, s.responses, m);
  }

  lemma RepliesLater(toHost: seq<Message>, receiveSeq: nat, next: nat, heard: nat, finished: int, next': nat,
                     finished': int)
    requires Replies(toHost, receiveSeq, next, heard, finished) && next <= next' && finished <= finished'
    ensures Replies(toHost, receiveSeq, next', heard, finished')
  {
  }

  lemma FinishKeeps(s: System)
    requires Inv(s) && s.mcu.busy
    ensures Inv(FinishStep(s))
  {
    hide HostInv, Wire, NoticesInOrder, Replies, Relayed;
    assert s.responses + [] == s.responses;
    var t := s.(mcu := s.mcu.(busy := false));
    RepliesLater(s.toHost, s.host.receiveSeq, s.mcu.next, s.heard, Finished(s.mcu), s.mcu.next, Finished(t.mcu));
    SendMessageKeeps(t, AckNak(t.mcu));
  }

  /** Four bits are enough: a block on the link that looks like the one awaited is the one awaited. */
  lemma LooksLikeIs(m: Mcu, f: Frame, first: nat, built: seq<Payload>)
    requires Dispatched(m, first, built) && GoodFrame(f, m.next, first, built)
    requires first + |built| <= m.next + MAX_PENDING_BLOCKS
    ensures Accepts(m, f) <==> f.id == m.next
  {
  }

  lemma DispatchMore(m: Mcu, f: Frame, first: nat, built: seq<Payload>)
    requires Dispatched(m, first, built) && f.id == m.next && Holds(first, built, f.id, f)
    ensures Dispatched(Dispatch(m, f), first, built)
  {
    assert built[..m.next - first] + [f.payload] == built[..m.next + 1 - first];
  }

  lemma WireMovesOn(toMcu: seq<Frame>, next: nat, first: nat, built: seq<Payload>)
    requires Wire(toMcu, next, first, built) && toMcu != [] && toMcu[0].id == next
    ensures Wire(toMcu[1..], next + 1, first, built)
  {
  }

  /** Not more blocks are pending than four bits can tell apart. */
  lemma FewPending(s: System)
    requires Inv(s)
    ensures s.log.first + |s.log.built| == s.host.sendSeq <= s.host.receiveSeq + MAX_PENDING_BLOCKS
    ensures 2 <= s.log.first <= s.host.receiveSeq <= s.mcu.next
    ensures |s.host.sent| == s.host.sendSeq - s.host.receiveSeq
  {
    hide Karn, Estimated, Advances, NoticeTimes, Recorded, Asked, AcksKnown, NaksLimited, SentTimes, Wire, Replies;
    hide Relayed;
  }

  lemma DispatchKeeps(s: System)
    requires Inv(s) && s.toMcu != [] && Accepts(s.mcu, s.toMcu[0]) && !s.mcu.busy && s.mcu.next > 0
    ensures Inv(FindStep(s))
  {
    hide HostInv, NoticesInOrder, Replies, Dispatched, Relayed, NotMuchOlder;
    var f, t := s.toMcu[0], FindStep(s);
    FewPending(s);
    assert GoodFrame(f, s.mcu.next, s.log.first, s.log.built);
    LooksLikeIs(s.mcu, f, s.log.first, s.log.built);
    DispatchMore(s.mcu, f, s.log.first, s.log.built);
    WireMovesOn(s.toMcu, s.mcu.next, s.log.first, s.log.built);
    RepliesLater(s.toHost, s.host.receiveSeq, s.mcu.next, s.heard, Finished(s.mcu), t.mcu.next, Finished(t.mcu));
  }

  lemma FindKeeps(s: System)
    requires Inv(s) && s.toMcu != [] && !s.mcu.busy && s.mcu.next > 0
    ensures Inv(FindStep(s))
  {
    if Accepts(s.mcu, s.toMcu[0]) {
      DispatchKeeps(s);
    } else {
      hide Inv;
      LoseFrameKeeps(s, 0);
      assert s.responses + [] == s.responses;
      var t := s.(toMcu := Without(s.toMcu, 0));
      assert t.toMcu == s.toMcu[1..];
      SendMessageKeeps(t, AckNak(t.mcu));
    }
  }

  // ----- the host sends -----

  lemma WireMore(toMcu: seq<Frame>, next: nat, first: nat, built: seq<Payload>, f: Frame)
    requires Wire(toMcu, next, first, built)
    requires f.id == first + |built| && f.nibble == f.id % 16 && next <= f.id
    ensures Wire(toMcu + [f], next, first, built + [f.payload])
  {
    var all := toMcu + [f];
    forall i | 0 <= i < |all| ensures GoodFrame(all[i], next, first, built + [f.payload]) {
      if i < |toMcu| { assert GoodFrame(toMcu[i], next, first, built); }
    }
    assert forall i :: 0 <= i < |toMcu| ==> toMcu[i].id < f.id by {
      forall i | 0 <= i < |toMcu| ensures toMcu[i].id < f.id {
        assert GoodFrame(toMcu[i], next, first, built);
      }
    }
  }

  lemma DispatchedMore(m: Mcu, first: nat, built: seq<Payload>, payload: Payload)
    requires Dispatched(m, first, built)
    ensures Dispatched(m, first, built + [payload])
  {
  }

  lemma BuildKeeps(s: System, e: Event)
    requires Inv(s) && e.BuildBlock? && MaySend(s.host) && e.len <= MESSAGE_MAX
    ensures Inv(BuildStep(s, e))
  {
    hide HostInv, Wire, NoticesInOrder, Replies, Relayed, Dispatched;
    FewPending(s);
    BuildHost(s.host, s.log, e.payload, e.len, e.notices, e.receiveTime);
    WireMore(s.toMcu, s.mcu.next, s.log.first, s.log.built, NextFrame(s.host, e.payload));
    DispatchedMore(s.mcu, s.log.first, s.log.built, e.payload);
  }

  lemma WireAgain(toMcu: seq<Frame>, next: nat, first: nat, built: seq<Payload>, sent: seq<Sent>, need: int,
                  receiveSeq: nat)
    requires Wire(toMcu, next, first, built) && SentQueue(sent, need, receiveSeq, first, built)
    requires first + |built| <= receiveSeq + MAX_PENDING_BLOCKS && next <= receiveSeq + MAX_PENDING_BLOCKS
    ensures Wire(toMcu + Frames(sent), next, first, built)
  {
    var all := toMcu + Frames(sent);
    forall i | 0 <= i < |sent|
      ensures sent[i].frame.id == receiveSeq + i && GoodFrame(sent[i].frame, next, first, built)
    {
      assert Holds(first, built, receiveSeq + i, sent[i].frame);
    }
    forall i | 0 <= i < |toMcu| ensures toMcu[i].id < first + |built| {
      assert GoodFrame(toMcu[i], next, first, built);
    }
  }

  lemma SentHolds(s: System)
    requires Inv(s)
    ensures SentQueue(s.host.sent, s.host.needAckBytes, s.host.receiveSeq, s.log.first, s.log.built)
  {
    hide SentQueue, Karn, Estimated, Advances, NoticeTimes, Recorded, Asked, AcksKnown, NaksLimited, SentTimes, Wire;
    hide Replies;
    hide Relayed;
  }

  lemma RetransmitKeeps(s: System)
    requires Inv(s)
    ensures s.log.first <= s.host.receiveSeq && Inv(RetransmitStep(s))
  {
    hide HostInv, SentQueue, Wire, NoticesInOrder, Replies, Dispatched, Relayed;
    FewPending(s);
    SentHolds(s);
    RetransmitHost(s.host, s.log);
    WireAgain(s.toMcu, s.mcu.next, s.log.first, s.log.built, s.host.sent, s.host.needAckBytes, s.host.receiveSeq);
  }

  // ----- the host takes a message -----

  lemma RepliesLess(toHost: seq<Message>, receiveSeq: nat, next: nat, heard: nat, finished: int)
    requires Replies(toHost, receiveSeq, next, heard, finished) && toHost != []
    ensures Replies(toHost[1..], toHost[0].next, next, toHost[0].done, finished)
  {
    assert GoodMessage(toHost[0], receiveSeq, next, heard, finished);
    forall i | 0 <= i < |toHost[1..]|
      ensures GoodMessage(toHost[1..][i], toHost[0].next, next, toHost[0].done, finished)
    {
      assert GoodMessage(toHost[i + 1], receiveSeq, next, heard, finished);
    }
  }

  lemma NoticesFollow(received: seq<Entry>, heard: nat, blocks: seq<nat>, done: nat, sentTime: real, ack: nat)
    requires NoticesInOrder(received, heard) && heard <= done && forall i :: 0 <= i < |blocks| ==> blocks[i] < done
    ensures NoticesInOrder(received + Notices(blocks, sentTime, ack), done)
  {
  }

  lemma DataFollows(received: seq<Entry>, heard: nat, e: Entry)
    requires NoticesInOrder(received, heard) && e.Data? && e.done == heard
    ensures NoticesInOrder(received + [e], heard)
  {
  }

  /** The messages of the micro-controller are never refused, and are understood as they were meant. */
  lemma MessageUnderstood(s: System)
    requires Inv(s) && s.toHost != []
    ensures var m := s.toHost[0];
            && 0 <= m.nibble < 16 && s.host.receiveSeq <= m.next <= s.mcu.next
            && Rebuild(s.host.receiveSeq, m.nibble) == m.next && !Refused(s.host, m)
            && s.heard <= m.done && WakeSeq(m.next, m) < m.done
  {
    hide HostInv, Wire, NoticesInOrder, Relayed, Dispatched, Rebuild;
    var m := s.toHost[0];
    FewPending(s);
    assert GoodMessage(m, s.host.receiveSeq, s.mcu.next, s.heard, Finished(s.mcu));
    RebuildExact(s.host.receiveSeq, m.next);
  }

  /** What a message adds to what the receiving thread is handed: notices, then the data. */
  lemma HandedOver(h: Host, wake: int, m: Message)
    ensures var n := Ripe(h.notify, wake); var t := TakeMessage(ReleaseNotices(h, wake), h.receiveSeq, m);
            && n <= |h.notify| && t.receiveSeq == h.receiveSeq && t.sendSeq == h.sendSeq
            && var notices := Notices(h.notify[..n], h.lastReceiveSentTime, h.receiveSeq);
               if m.data then
                 && |t.received| == |h.received| + n + 1
                 && var d := t.received[|t.received|-1];
                    t.received == h.received + notices + [d] && d.Data? && d.payload == m.payload && d.done == m.done
               else t.received == h.received + notices
  {
    hide Ripe;
  }

  lemma OrderKept(h: Host, wake: int, m: Message, heard: nat)
    requires NoticesInOrder(h.received, heard) && heard <= m.done && wake < m.done
    ensures NoticesInOrder(TakeMessage(ReleaseNotices(h, wake), h.receiveSeq, m).received, m.done)
  {
    hide NoticesInOrder, Ripe, TakeMessage, ReleaseNotices;
    var n := Ripe(h.notify, wake);
    forall i | 0 <= i < n ensures h.notify[i] < m.done {
      RipeAreDue(h.notify, wake, i);
    }
    NoticesFollow(h.received, heard, h.notify[..n], m.done, h.lastReceiveSentTime, h.receiveSeq);
    HandedOver(h, wake, m);
    var t := TakeMessage(ReleaseNotices(h, wake), h.receiveSeq, m);
    if m.data {
      DataFollows(h.received + Notices(h.notify[..n], h.lastReceiveSentTime, h.receiveSeq), m.done,
                  t.received[|t.received|-1]);
    }
  }

  lemma RelayKept(h: Host, wake: int, toHost: seq<Message>, responses: seq<Payload>)
    requires toHost != [] && Relayed(h.received, toHost, responses)
    ensures Relayed(TakeMessage(ReleaseNotices(h, wake), h.receiveSeq, toHost[0]).received, toHost[1..], responses)
  {
    hide Relayed, Ripe, TakeMessage, ReleaseNotices;
    var m, n := toHost[0], Ripe(h.notify, wake);
    HandedOver(h, wake, m);
    var notices := Notices(h.notify[..n], h.lastReceiveSentTime, h.receiveSeq);
    var t := TakeMessage(ReleaseNotices(h, wake), h.receiveSeq, m);
    RelayedDelivery(h.received, notices, toHost, responses, if m.data then [t.received[|t.received|-1]] else []);
    assert h.received + notices + [] == h.received + notices;
  }

  lemma DeliverKeeps(s: System, eventtime: real)
    requires Inv(s) && s.toHost != []
    ensures 0 <= s.toHost[0].nibble < 16 && Inv(DeliverStep(s, eventtime))
    ensures var h := DeliverStep(s, eventtime).host; h.receiveSeq == s.toHost[0].next && h.sendSeq == s.host.sendSeq
    ensures var l := DeliverStep(s, eventtime).log; l.first == s.log.first && l.built == s.log.built
  {
    hide HostInv, Wire, NoticesInOrder, Replies, Dispatched, Relayed, HandleMessage, Rebuild, Refused, Advanced;
    hide ReleaseNotices, TakeMessage;
    var m := s.toHost[0];
    MessageUnderstood(s);
    HandleHost(s.host, s.log, eventtime, m);
    HandleParts(s.host, eventtime, m);
    AdvancedHost(s.host, s.log, eventtime, m.next);
    var h, wake := Advanced(s.host, eventtime, m.next), WakeSeq(m.next, m);
    HandedOver(h, wake, m);
    RepliesLess(s.toHost, s.host.receiveSeq, s.mcu.next, s.heard, Finished(s.mcu));
    OrderKept(h, wake, m, s.heard);
    RelayKept(h, wake, s.toHost, s.responses);
  }

  // ----- runs -----

  lemma StartKeeps(first: nat, window: nat)
    requires first >= 2
    ensures Inv(Start(first, window))
  {
    hide HostInv;
    StartHost(first, window);
  }

  lemma StartHost(first: nat, window: nat)
    requires first >= 2
    ensures HostInv(Start(first, window).host, NewHistory(first))
  {
    hide Recorded, Asked, NoticeTimes, Karn, AcksKnown, NaksLimited;
    StartRecorded(first, window);
    StartKarn(first, window);
    NoneAsked(first);
  }

  lemma StartKarn(first: nat, window: nat)
    requires first >= 2
    ensures var h := Start(first, window).host; Karn(h, first, []) && AcksKnown(h, []) && NaksLimited(h, [])
  {
  }

  lemma NoneAsked(first: nat)
    ensures Asked([], [], [], first) && NoticeTimes([], first, [], [])
  {
  }

  lemma StartRecorded(first: nat, window: nat)
    requires first >= 2
    ensures Recorded(Start(first, window).host, NewHistory(first))
  {
  }

  lemma NakSends(s: System)
    requires Inv(s) && !s.mcu.busy && s.mcu.next > 0
    ensures Inv(s.(toHost := s.toHost + [AckNak(s.mcu)]))
  {
    hide Inv;
    assert s.responses + [] == s.responses;
    SendMessageKeeps(s, AckNak(s.mcu));
  }

  lemma StepKeeps(s: System, e: Event)
    requires Inv(s)
    ensures Inv(Step(s, e))
  {
    hide Inv;
    if Enabled(s, e) {
      match e
      case BuildBlock(_, _, _, _) => BuildKeeps(s, e);
      case RetransmitAll => RetransmitKeeps(s);
      case LoseFrame(at) => LoseFrameKeeps(s, at);
      case LoseMessage(at) => LoseMessageKeeps(s, at);
      case Deliver(eventtime) => DeliverKeeps(s, eventtime);
      case FindBlock => FindKeeps(s);
      case SpuriousNak => NakSends(s);
      case Respond(payload) => SendMessageKeeps(s, Response(s.mcu, payload));
      case Finish => FinishKeeps(s);
    }
  }

  lemma {:induction false} RunKeeps(first: nat, window: nat, es: seq<Event>)
    requires first >= 2
    ensures Inv(Run(first, window, es))
  {
    hide Inv;
    if es == [] {
      StartKeeps(first, window);
    } else {
      RunKeeps(first, window, es[..|es|-1]);
      StepKeeps(Run(first, window, es[..|es|-1]), es[|es|-1]);
    }
  }
}
