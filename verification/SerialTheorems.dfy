/** What holds in every run of the link, whatever is lost and however the two sides interleave. */
module SerialTheorems {
  import opened SerialHost
  import opened SerialLog
  import opened SerialLink
  import opened SerialProof

  /** The blocks dispatched are a prefix of those built: in order, each exactly once, none invented. */
  lemma DispatchesInOrder(first: nat, window: nat, es: seq<Event>)
    requires first >= 2
    ensures var s := Run(first, window, es); s.mcu.dispatched <= s.log.built && |s.mcu.dispatched| == s.mcu.next - first
    ensures var s := Run(first, window, es);
            s.host.receiveSeq <= s.mcu.next <= s.host.sendSeq <= s.host.receiveSeq + MAX_PENDING_BLOCKS
  {
    hide Run, Step, Wire, Replies, NoticesInOrder, HostInv, Relayed;
    RunKeeps(first, window, es);
    RunFirst(first, window, es);
    FewPending(Run(first, window, es));
  }

  lemma {:induction false} RunFirst(first: nat, window: nat, es: seq<Event>)
    ensures Run(first, window, es).log.first == first
  {
    if es != [] { RunFirst(first, window, es[..|es|-1]); }
  }

  /** What a run says of the host alone. */
  lemma RunHost(first: nat, window: nat, es: seq<Event>)
    requires first >= 2
    ensures var s := Run(first, window, es); HostInv(s.host, s.log) && s.log.first == first
  {
    hide Run, Step, Wire, Replies, NoticesInOrder, HostInv, Relayed, Dispatched;
    RunKeeps(first, window, es);
    RunFirst(first, window, es);
  }

  /**
   Every message is understood: the number the host rebuilds from four bits is the one the
   micro-controller meant, and no message is refused or taken for a new connection.
   */
  lemma MessagesUnderstood(first: nat, window: nat, es: seq<Event>, eventtime: real)
    requires first >= 2 && Run(first, window, es).toHost != []
    ensures var s := Run(first, window, es); var m := s.toHost[0];
            && 0 <= m.nibble < 16 && !Refused(s.host, m) && Rebuild(s.host.receiveSeq, m.nibble) == m.next
            && HandleMessage(s.host, eventtime, m).receiveSeq == m.next
            && HandleMessage(s.host, eventtime, m).sendSeq == s.host.sendSeq
  {
    hide Run, Step, Inv;
    RunKeeps(first, window, es);
    var s := Run(first, window, es);
    MessageUnderstood(s);
    DeliverKeeps(s, eventtime);
  }

  /**
   Notices are given once each, in order; when one is given its block is finished, and no
   response from that block or an earlier one comes after it.
   */
  lemma NoticesMeanFinished(first: nat, window: nat, es: seq<Event>)
    requires first >= 2
    ensures var s := Run(first, window, es); Given(s.host.received) + s.host.notify == s.log.wanted
    ensures var s := Run(first, window, es);
            forall i :: 0 <= i < |s.host.received| && s.host.received[i].Notice? ==>
              s.host.received[i].block < Finished(s.mcu)
    ensures var s := Run(first, window, es);
            forall i, j :: 0 <= i < j < |s.host.received| && s.host.received[i].Notice? && s.host.received[j].Data?
              ==> s.host.received[i].block < s.host.received[j].done
  {
    hide Run, Step, Wire, Karn, SentQueue, SentTimes, Dispatched, Given, Estimated, Advances, NoticeTimes, Recorded;
    hide Relayed;
    hide AcksKnown, NaksLimited;
    RunKeeps(first, window, es);
  }

  ghost predicate InTurn(notify: seq<nat>, sendSeq: nat) {
    && (forall i, j :: 0 <= i < j < |notify| ==> notify[i] <= notify[j])
    && (forall i :: 0 <= i < |notify| ==> notify[i] < sendSeq)
  }

  lemma {:induction false} RipeStops(notify: seq<nat>, wakeSeq: int)
    ensures var n := Ripe(notify, wakeSeq); n < |notify| ==> notify[n] > wakeSeq
  {
    if notify != [] && notify[0] <= wakeSeq { RipeStops(notify[1..], wakeSeq); }
  }

  lemma RestInTurn(notify: seq<nat>, sendSeq: nat, n: nat)
    requires InTurn(notify, sendSeq) && n <= |notify|
    ensures InTurn(notify[n..], sendSeq)
  {
  }

  lemma TakenNotify(h: Host, rseq: nat, m: Message)
    ensures var t := TakeMessage(ReleaseNotices(h, WakeSeq(rseq, m)), rseq, m);
            t.sendSeq == h.sendSeq && t.notify == h.notify[Ripe(h.notify, WakeSeq(rseq, m))..]
  {
    hide Ripe, Notices;
  }

  /** What is left to be handed over after a message is for later blocks. */
  lemma HandledNotify(h: Host, log: History, eventtime: real, m: Message)
    requires HostInv(h, log) && InTurn(h.notify, h.sendSeq) && 0 <= m.nibble < 16 && !Refused(h, m)
    requires Rebuild(h.receiveSeq, m.nibble) == m.next
    ensures var t := HandleMessage(h, eventtime, m);
            && InTurn(t.notify, t.sendSeq)
            && forall i :: 0 <= i < |t.notify| ==> t.notify[i] > m.next - 1 - if m.data then 1 else 0
  {
    hide HostInv, Rebuild, Refused, Ripe, Advanced, HandleMessage, InTurn;
    HandleParts(h, eventtime, m);
    RefusedBeyond(h, log, m);
    AdvancedHost(h, log, eventtime, m.next);
    var a := Advanced(h, eventtime, m.next);
    RipeStops(a.notify, WakeSeq(m.next, m));
    RestInTurn(a.notify, a.sendSeq, Ripe(a.notify, WakeSeq(m.next, m)));
    TakenNotify(a, m.next, m);
  }

  lemma StepInTurn(s: System, e: Event)
    requires Inv(s) && InTurn(s.host.notify, s.host.sendSeq)
    ensures InTurn(Step(s, e).host.notify, Step(s, e).host.sendSeq)
  {
    hide Inv, HandleMessage, InTurn;
    if Enabled(s, e) {
      match e
      case BuildBlock(p, len, n, t) => BuildInTurn(s.host, p, len, n, t);
      case Deliver(t) =>
        MessageUnderstood(s);
        UnderstoodHost(s);
        HandledNotify(s.host, s.log, t, s.toHost[0]);
      case _ =>
    }
  }

  lemma BuildInTurn(h: Host, payload: Payload, len: nat, notices: nat, receiveTime: real)
    requires InTurn(h.notify, h.sendSeq)
    ensures var t := Build(h, payload, len, notices, receiveTime); InTurn(t.notify, t.sendSeq)
  {
  }

  lemma {:induction false} RunInTurn(first: nat, window: nat, es: seq<Event>)
    requires first >= 2
    ensures InTurn(Run(first, window, es).host.notify, Run(first, window, es).host.sendSeq)
  {
    hide Inv, Step;
    if es != [] {
      RunInTurn(first, window, es[..|es|-1]);
      RunKeeps(first, window, es[..|es|-1]);
      StepInTurn(Run(first, window, es[..|es|-1]), es[|es|-1]);
    }
  }

  /**
   Notices do not wait longer than they have to: after a message is taken, those still waiting
   are for blocks it does not say are finished, which an ack says of all blocks before its
   number, and a response of all but the last of them.
   */
  lemma NoticesNotLate(first: nat, window: nat, es: seq<Event>, eventtime: real)
    requires first >= 2 && Run(first, window, es).toHost != []
    ensures var s := Run(first, window, es); var m := s.toHost[0];
            && 0 <= m.nibble < 16
            && forall n :: n in DeliverStep(s, eventtime).host.notify ==>
                 if m.data then m.next - 1 <= n else m.next <= n
  {
    hide Run, Step, Inv, HostInv, HandleMessage, InTurn;
    RunKeeps(first, window, es);
    RunInTurn(first, window, es);
    var s := Run(first, window, es);
    MessageUnderstood(s);
    UnderstoodHost(s);
    HandledNotify(s.host, s.log, eventtime, s.toHost[0]);
  }

  /** Responses are handed over in the order they were sent, none twice and none invented. */
  lemma ResponsesInOrder(first: nat, window: nat, es: seq<Event>)
    requires first >= 2
    ensures var s := Run(first, window, es); Subsequence(Handed(s.host.received) + OnTheWay(s.toHost), s.responses)
  {
    hide Run, Step, Wire, HostInv, Dispatched, NoticesInOrder, Subsequence, Handed, OnTheWay;
    RunKeeps(first, window, es);
  }

  /** A response sent while a block is being dispatched carries the number of that block. */
  lemma ResponseOfHandler(s: System, payload: Payload)
    requires s.mcu.busy && s.mcu.next > 0
    ensures var t := Step(s, Respond(payload));
            t.toHost == s.toHost + [t.toHost[|s.toHost|]] && t.toHost[|s.toHost|].done == s.mcu.next - 1
  {
  }

  /**
   Over every run the micro-controller takes a block from the link if and only if it is the one
   awaited, and answers any other with the number awaited.
   */
  lemma BlockTakenIff(first: nat, window: nat, es: seq<Event>)
    requires first >= 2 && Enabled(Run(first, window, es), FindBlock)
    ensures var s := Run(first, window, es); var f, t := s.toMcu[0], Step(s, FindBlock);
            && t.toMcu == s.toMcu[1..] && t.host == s.host
            && if f.id == s.mcu.next
               then t.mcu.busy && t.mcu.next == s.mcu.next + 1 && t.mcu.dispatched == s.mcu.dispatched + [f.payload]
                    && t.toHost == s.toHost
               else t.mcu == s.mcu && |t.toHost| == |s.toHost| + 1 && t.toHost[..|s.toHost|] == s.toHost
                    && !t.toHost[|s.toHost|].data && t.toHost[|s.toHost|].next == s.mcu.next
  {
    hide Run, HostInv, Replies, NoticesInOrder, NotMuchOlder, Relayed;
    RunKeeps(first, window, es);
    var s := Run(first, window, es);
    FewPending(s);
    assert GoodFrame(s.toMcu[0], s.mcu.next, s.log.first, s.log.built);
    LooksLikeIs(s.mcu, s.toMcu[0], s.log.first, s.log.built);
  }

  // ----- times -----

  /**
   Karn's rule: every round-trip sample, and every response with a sent time, comes from a
   block written exactly once.
   */
  lemma SamplesFromBlocksSentOnce(first: nat, window: nat, es: seq<Event>)
    requires first >= 2
    ensures var s := Run(first, window, es);
            forall i :: 0 <= i < |s.host.samples| ==> Once(first, s.log.sends, s.host.samples[i].block)
    ensures var s := Run(first, window, es);
            forall i :: 0 <= i < |s.host.received| && s.host.received[i].Data? && s.host.received[i].sentTime != 0.0
              ==> Once(first, s.log.sends, s.host.received[i].ack - 1)
    ensures MIN_RTO <= Run(first, window, es).host.rto <= MAX_RTO
  {
    hide Run, Step, SentQueue, SentTimes, Estimated, AcksKnown, NaksLimited, Asked, Advances, NoticeTimes, Recorded;
    hide Once;
    RunHost(first, window, es);
  }

  /** How far the tenfold first round trip still carries the estimate after n more. */
  function Excess(hi: real, n: nat): real {
    if n == 0 then 9.0 * hi else 7.0 * Excess(hi, n - 1) / 8.0
  }

  ghost predicate Within(samples: seq<RoundTrip>, lo: real, hi: real) {
    forall i :: 0 <= i < |samples| ==> lo <= samples[i].delta <= hi
  }

  lemma {:induction false} MeanBounded(samples: seq<RoundTrip>, lo: real, hi: real)
    requires 0.0 < lo <= hi && Within(samples, lo, hi) && samples != []
    ensures lo <= Mean(samples) <= hi + Excess(hi, |samples| - 1)
    ensures 0.0 <= Deviation(samples) <= 10.0 * hi - lo
    ensures Excess(hi, |samples| - 1) <= 9.0 * hi
  {
    var before, delta := samples[..|samples|-1], samples[|samples|-1].delta;
    if before != [] { MeanBounded(before, lo, hi); }
  }

  /**
   Over every run, when the round trips measured lie between `lo` and `hi`: the estimate is
   not below `lo`, exceeds `hi` by an amount that shrinks by an eighth with every round trip,
   its deviation stays bounded, and the timeout covers it unless it is at its limit.
   */
  lemma EstimateOverRuns(first: nat, window: nat, es: seq<Event>, lo: real, hi: real)
    requires first >= 2 && 0.0 < lo <= hi && Within(Run(first, window, es).host.samples, lo, hi)
    ensures var h := Run(first, window, es).host;
            if h.samples == [] then h.srtt == 0.0 && h.rttvar == 0.0
            else
              && lo <= h.srtt <= hi + Excess(hi, |h.samples| - 1) <= 10.0 * hi && 0.0 <= h.rttvar <= 10.0 * hi - lo
              && (h.srtt < h.rto || h.rto == MAX_RTO)
  {
    hide Run, Step, SentQueue, SentTimes, PendingAgain, FreshOnce, SampledOnce, TimedOnce, AcksKnown, NaksLimited;
    hide Asked, Advances, NoticeTimes, Recorded, Within;
    RunHost(first, window, es);
    var h := Run(first, window, es).host;
    if h.samples != [] { MeanBounded(h.samples, lo, hi); }
  }

  function Power(x: real, n: nat): real {
    if n == 0 then 1.0 else x * Power(x, n - 1)
  }

  /** Round trips that are all alike: the estimate comes down to them from ten times as much by an eighth of the
      rest each time, and the deviation follows. */
  lemma {:induction false} SteadyTrips(samples: seq<RoundTrip>, delta: real)
    requires delta > 0.0 && samples != [] && forall i :: 0 <= i < |samples| ==> samples[i].delta == delta
    ensures Mean(samples) == delta + 9.0 * delta * Power(0.875, |samples| - 1)
    ensures Deviation(samples) ==
              18.0 * delta * Power(0.875, |samples| - 1) - 17.5 * delta * Power(0.75, |samples| - 1)
    ensures Power(0.875, |samples| - 1) > 0.0
  {
    var n := |samples| - 1;
    if n > 0 {
      SteadyTrips(samples[..n], delta);
      assert samples[..n] != [];
      assert Power(0.875, n) == 0.875 * Power(0.875, n - 1) && Power(0.75, n) == 0.75 * Power(0.75, n - 1);
    } else {
      assert samples[..0] == [];
    }
  }

  /** The timeout that round trips give: their mean and four deviations, at least a millisecond, within the
      limits of 25 milliseconds and 5 seconds. */
  lemma TimeoutOfTrips(samples: seq<RoundTrip>)
    ensures samples == [] ==> BaseOf(samples) == 0.025
    ensures samples != [] ==>
              var t := Mean(samples) + if Deviation(samples) >= 0.00025 then 4.0 * Deviation(samples) else 0.001;
              BaseOf(samples) == if t < 0.025 then 0.025 else if t > 5.0 then 5.0 else t
  {
  }

  /** One block, with a notice, that was written twice and is still on its way. */
  ghost predicate TwiceWritten(s: System, payload: Payload, len: nat) {
    && s.toMcu != [] && s.toMcu[0] == Frame(2, 2, payload) && s.toHost == [] && s.mcu == Mcu(2, false, 2, [])
    && s.host.sent == [Sent(Frame(2, 2, payload), len, 1.0)] && s.host.receiveSeq == 2 && s.host.sendSeq == 3
    && s.host.notify == [2] && s.host.received == [] && s.host.rttSampleSeq == 0 && s.log.sends == [2]
  }

  lemma WriteTwice(payload: Payload, len: nat)
    requires len <= MESSAGE_MAX
    ensures TwiceWritten(Step(Step(Start(2, 0), BuildBlock(payload, len, 1, 1.0)), RetransmitAll), payload, len)
  {
    var s := Step(Start(2, 0), BuildBlock(payload, len, 1, 1.0));
    assert s.host.notify == [2] && s.log.sends == [1] && s.host.sent == [Sent(Frame(2, 2, payload), len, 1.0)];
  }

  lemma AnswerTwice(s: System, payload: Payload, len: nat)
    requires TwiceWritten(s, payload, len)
    ensures var t := Step(Step(Step(s, FindBlock), Finish), Deliver(2.0));
            t.host.received == [Notice(2, 1.0, 3)] && t.log.sends == [2]
  {
    var t := Step(Step(s, FindBlock), Finish);
    assert t.toHost == [Message(3, false, [], 3, 3)] && t.host == s.host && t.log == s.log;
    assert Rebuild(2, 3) == 3;
    assert Ripe([2], 2) == 1 + Ripe([2][1..], 2);
  }

  /** A run with one block, written twice, whose notice carries a sent time all the same. */
  lemma NoticeTimeUnchecked(payload: Payload, len: nat)
    requires len <= MESSAGE_MAX
    ensures var s := Run(2, 0, [BuildBlock(payload, len, 1, 1.0), RetransmitAll, FindBlock, Finish, Deliver(2.0)]);
            s.host.received == [Notice(2, 1.0, 3)] && s.log.sends == [2]
  {
    hide Run, Step;
    var es := [BuildBlock(payload, len, 1, 1.0), RetransmitAll, FindBlock, Finish, Deliver(2.0)];
    var s1 := Step(Start(2, 0), es[0]);
    var s2 := Step(s1, es[1]);
    var s3 := Step(s2, es[2]);
    var s4 := Step(s3, es[3]);
    WriteTwice(payload, len);
    AnswerTwice(s2, payload, len);
    Unfold(es, s1, s2, s3, s4, Step(s4, es[4]));
  }

  lemma Unfold(es: seq<Event>, s1: System, s2: System, s3: System, s4: System, s5: System)
    requires |es| == 5 && s1 == Step(Start(2, 0), es[0]) && s2 == Step(s1, es[1]) && s3 == Step(s2, es[2])
    requires s4 == Step(s3, es[3]) && s5 == Step(s4, es[4])
    ensures Run(2, 0, es) == s5
  {
    hide Step;
    assert es[..4][..3] == es[..3] && es[..3][..2] == es[..2] && es[..2][..1] == es[..1] && es[..1][..0] == [];
    assert Run(2, 0, es[..1]) == s1;
    assert Run(2, 0, es[..2]) == s2;
    assert Run(2, 0, es[..3]) == s3;
    assert Run(2, 0, es[..4]) == s4;
  }

  /**
   Over every run, the sent time of every notice: it is that of the block before the number
   acknowledged, which is the block of the notice or a later one; and that block was written
   once if and only if the ack that brought the receive number there was beyond the last
   retransmission at that moment.  Responses check this; notices do not.
   */
  lemma NoticeTimeExact(first: nat, window: nat, es: seq<Event>, i: nat)
    requires first >= 2 && i < |Run(first, window, es).host.received| && Run(first, window, es).host.received[i].Notice?
    ensures var s := Run(first, window, es); var n := s.host.received[i];
            && first <= n.block < n.ack <= s.host.receiveSeq <= first + |s.log.times|
            && n.sentTime == s.log.times[n.ack - first - 1]
            && (exists j :: 0 <= j < |s.log.advances| && s.log.advances[j].to == n.ack)
            && (forall j :: 0 <= j < |s.log.advances| && s.log.advances[j].to == n.ack ==>
                  (Once(first, s.log.sends, n.ack - 1) <==> s.log.advances[j].beyond))
  {
    hide Run, Step, SentQueue, SentTimes, Karn, Estimated, AcksKnown, NaksLimited, Asked;
    RunHost(first, window, es);
    var s := Run(first, window, es);
    assert NoticeTime(s.host.received[i], first, s.log.times, s.log.advances);
    forall j | 0 <= j < |s.log.advances| ensures AdvanceAt(s.log.advances[j], s.host.receiveSeq, first, s.log.sends) {
    }
  }

  /**
   Over every run, the sent time of every response: it is that of the block before the number
   acknowledged when it was handed over, if that number was beyond the last retransmission
   then and a block comes before it, and zero otherwise.
   */
  lemma ResponseTimeExact(first: nat, window: nat, es: seq<Event>)
    requires first >= 2
    ensures var s := Run(first, window, es); var d, answers := DataOf(s.host.received), s.log.answers;
            && |d| == |answers|
            && forall i :: 0 <= i < |d| ==>
                 && d[i].Data? && d[i].ack == answers[i].ack && first <= d[i].ack <= first + |s.log.times|
                 && d[i].sentTime ==
                      if answers[i].beyond && d[i].ack > first then s.log.times[d[i].ack - first - 1] else 0.0
  {
    hide Run, Step, SentQueue, SentTimes, Karn, Estimated, AcksKnown, NaksLimited, Asked, Advances, NoticeTimes;
    hide Lengths, RewritesKnown, RtoExact, Marked, DataOf;
    RunHost(first, window, es);
    var s := Run(first, window, es);
    forall i | 0 <= i < |s.log.answers|
      ensures AnswerAt(DataOf(s.host.received)[i], s.log.answers[i], first, s.log.times)
    {
    }
  }

  /** What an answer on record is: the response as it was handed over, and the guard as it stood. */
  lemma AnswerRecorded(first: nat, window: nat, es: seq<Event>, eventtime: real)
    requires first >= 2 && Run(first, window, es).toHost != [] && Run(first, window, es).toHost[0].data
    ensures 0 <= Run(first, window, es).toHost[0].nibble < 16
    ensures var s := Run(first, window, es); var m := s.toHost[0];
            var t := DeliverStep(s, eventtime); var d := DataOf(t.host.received);
            && t.log.answers == s.log.answers + [Answer(m.next, m.next > s.host.retransmitSeq)]
            && |d| == |DataOf(s.host.received)| + 1 && d[..|d|-1] == DataOf(s.host.received)
            && d[|d|-1].payload == m.payload && d[|d|-1].done == m.done
  {
    hide Run, Inv, Rebuild, UpdateReceiveSeq, DataOf, Refused, Measured;
    RunKeeps(first, window, es);
    var s := Run(first, window, es);
    MessageUnderstood(s);
    var m, h := s.toHost[0], s.host;
    HandleParts(h, eventtime, m);
    UnderstoodHost(s);
    AdvancedHost(h, s.log, eventtime, m.next);
    TakenData(Advanced(h, eventtime, m.next), m.next, m);
  }

  lemma UnderstoodHost(s: System)
    requires Inv(s) && s.toHost != []
    ensures HostInv(s.host, s.log) && s.host.receiveSeq <= s.toHost[0].next <= s.host.sendSeq
  {
    hide HostInv, Wire, NoticesInOrder, Relayed, Dispatched;
  }

  lemma TakenData(h: Host, rseq: nat, m: Message)
    requires m.data
    ensures var t := TakeMessage(ReleaseNotices(h, WakeSeq(rseq, m)), rseq, m); var d := DataOf(t.received);
            && d == DataOf(h.received) + [t.received[|t.received|-1]]
            && t.received != [] && t.received[|t.received|-1].payload == m.payload
            && t.received[|t.received|-1].done == m.done
  {
    var n := Ripe(h.notify, WakeSeq(rseq, m));
    DataOfNotices(h.received, h.notify[..n], h.lastReceiveSentTime, h.receiveSeq);
    var u := ReleaseNotices(h, WakeSeq(rseq, m));
    var t := TakeMessage(u, rseq, m);
    assert t.received[..|t.received|-1] == u.received;
  }

  /** What an advance on record is: the receive number as it moved, and the guard as it stood. */
  lemma AdvanceRecorded(s: System, eventtime: real)
    requires Inv(s) && s.toHost != [] && s.toHost[0].next > s.host.receiveSeq
    ensures 0 <= s.toHost[0].nibble < 16
    ensures var m := s.toHost[0]; var t := DeliverStep(s, eventtime);
            && t.host.receiveSeq == m.next && s.host.receiveSeq < m.next
            && t.log.advances == s.log.advances + [Advance(m.next, m.next > s.host.retransmitSeq)]
  {
    hide Inv, HandleMessage, Rebuild;
    MessageUnderstood(s);
    DeliverKeeps(s, eventtime);
  }

  /**
   Over every run an ack or response that moves the receive number to `m.next` gives a round
   trip if and only if it acknowledges the first block built since the mark and the block
   before the number has a sent time; the round trip is measured from that time.
   */
  lemma RoundTripIff(first: nat, window: nat, es: seq<Event>, eventtime: real)
    requires first >= 2 && Run(first, window, es).toHost != []
    requires Run(first, window, es).toHost[0].next > Run(first, window, es).host.receiveSeq
    ensures var s := Run(first, window, es); var m := s.toHost[0];
            && first < m.next <= first + |s.log.times| && 0 <= m.nibble < 16
            && var time := s.log.times[m.next - first - 1];
               DeliverStep(s, eventtime).host.samples == s.host.samples +
                 if s.log.mark < m.next && time != 0.0 then [RoundTrip(m.next - 1, eventtime - time)] else []
  {
    hide Run, Step, Inv, HostInv, HandleMessage, Rebuild;
    RunKeeps(first, window, es);
    RunHost(first, window, es);
    var s := Run(first, window, es);
    var m, h := s.toHost[0], s.host;
    MessageUnderstood(s);
    UnderstoodHost(s);
    HandleParts(h, eventtime, m);
    MeasuredIff(h, s.log, eventtime, m.next);
  }

  /** The timeout doubled k times: that much longer, up to the limit. */
  lemma {:induction false} BackoffIs(base: real, k: nat)
    requires 0.0 < base <= MAX_RTO
    ensures Backoff(base, k) == if base * Power2(k) > MAX_RTO then MAX_RTO else base * Power2(k)
    ensures Power2(k) >= 1.0
  {
    if k > 0 {
      BackoffIs(base, k - 1);
      assert base * Power2(k) == base * Power2(k - 1) * 2.0;
    }
  }

  function Power2(k: nat): real {
    if k == 0 then 1.0 else Power2(k - 1) * 2.0
  }

  /** Over every run the timeout is what the round trips give, doubled with every timeout since the last of
      them. */
  lemma TimeoutExact(first: nat, window: nat, es: seq<Event>)
    requires first >= 2
    ensures var s := Run(first, window, es); var k := CountOf(s.log.lapses, |s.host.samples|);
            s.host.rto == var t := BaseOf(s.host.samples) * Power2(k); if t > MAX_RTO then MAX_RTO else t
  {
    hide Run, Step, SentQueue, SentTimes, Karn, Estimated, AcksKnown, NaksLimited, Asked, Advances, NoticeTimes;
    hide Lengths, RewritesKnown, AnswerTimes, Marked, Mean, Deviation, Margin, CountOf, Backoff;
    RunHost(first, window, es);
    var s := Run(first, window, es);
    BackoffIs(BaseOf(s.host.samples), CountOf(s.log.lapses, |s.host.samples|));
  }

  // ----- what is pending -----

  /** The bytes waiting for an ack are those of the blocks from receiveSeq on, and the timer is set while there
      are any. */
  lemma UnackedAccounted(first: nat, window: nat, es: seq<Event>)
    requires first >= 2
    ensures var h := Run(first, window, es).host;
            h.needAckBytes == Bytes(h.sent) && |h.sent| == h.sendSeq - h.receiveSeq
    ensures var h := Run(first, window, es).host; h.sent != [] ==> h.timer != Never
  {
    hide Run, Step, SentTimes, Karn, Estimated, AcksKnown, NaksLimited, Asked, Advances, NoticeTimes, Recorded;
    RunHost(first, window, es);
  }

  lemma StepTimer(s: System, e: Event)
    requires Inv(s) && (s.host.sent == [] <==> s.host.timer == Never)
    ensures var h := Step(s, e).host; h.sent == [] <==> h.timer == Never
  {
    hide Inv, Bytes, Clamp, Margin, NextMean, NextDeviation, Ripe, Refused, Rebuild;
    if e.Deliver? && Enabled(s, e) {
      MessageUnderstood(s);
    }
  }

  /** The retransmit timer is set exactly while blocks are pending. */
  lemma {:induction false} TimerIff(first: nat, window: nat, es: seq<Event>)
    requires first >= 2
    ensures var h := Run(first, window, es).host; h.sent == [] <==> h.timer == Never
  {
    hide Inv, Step;
    if es != [] {
      TimerIff(first, window, es[..|es|-1]);
      RunKeeps(first, window, es[..|es|-1]);
      StepTimer(Run(first, window, es[..|es|-1]), es[|es|-1]);
    }
  }

  lemma StepWindow(s: System, e: Event)
    ensures Step(s, e).host.window == s.host.window
  {
    hide Enabled;
  }

  lemma {:induction false} RunWindow(first: nat, window: nat, es: seq<Event>)
    ensures Run(first, window, es).host.window == window
  {
    hide Step;
    if es != [] {
      RunWindow(first, window, es[..|es|-1]);
      StepWindow(Run(first, window, es[..|es|-1]), es[|es|-1]);
    }
  }

  /**
   The receive buffer of the micro-controller is not overrun: over every run, while more than
   one block is pending, the bytes not acknowledged, with those of the last block while its own
   ack is outstanding, fit the window.
   */
  lemma WindowRespected(first: nat, window: nat, es: seq<Event>)
    requires first >= 2
    ensures var h := Run(first, window, es).host;
            h.window == window && (window != 0 && |h.sent| > 1 ==> Bytes(h.sent) + Behind(h) <= window)
  {
    hide Run, Step, SentTimes, Karn, Estimated, AcksKnown, NaksLimited, Asked, Advances, NoticeTimes, Recorded, Bytes;
    hide Behind;
    RunHost(first, window, es);
    RunWindow(first, window, es);
  }

  function Total(lens: seq<nat>): nat {
    if lens == [] then 0 else lens[0] + Total(lens[1..])
  }

  lemma {:induction false} BytesAre(sent: seq<Sent>, lens: seq<nat>)
    requires |sent| == |lens| && forall i :: 0 <= i < |sent| ==> sent[i].len == lens[i]
    ensures Bytes(sent) == Total(lens)
  {
    if sent != [] { BytesAre(sent[1..], lens[1..]); }
  }

  /**
   Over every run a block may be sent if and only if fewer than twelve of those built are not
   acknowledged and, with a receive window and any of them pending, a full block fits the
   window beside them and beside the last one acknowledged, if its own ack has not come.
   */
  lemma SendableIff(first: nat, window: nat, es: seq<Event>)
    requires first >= 2
    ensures var s := Run(first, window, es); var done := s.host.receiveSeq - first; var acks := s.log.acks;
            && 0 <= done <= |s.log.built| == |s.log.lens|
            && var unheard := if done > 0 && (acks == [] || acks[|acks|-1] < s.host.receiveSeq)
                              then s.log.lens[done - 1] else 0;
               MaySend(s.host) <==>
                 && |s.log.built| - done < 12
                 && (done < |s.log.built| && window != 0 ==> Total(s.log.lens[done..]) + 64 + unheard <= window)
  {
    hide Run, Step, SentTimes, Karn, Estimated, NaksLimited, Asked, Advances, NoticeTimes, AnswerTimes, Bytes;
    hide RewritesKnown, RtoExact, Marked, InWindow;
    RunHost(first, window, es);
    RunWindow(first, window, es);
    var s := Run(first, window, es);
    BytesAre(s.host.sent, s.log.lens[s.host.receiveSeq - first..]);
  }

  /**
   Over every run a message has all pending blocks written again at once if and only if that
   was due already and the receive number stays, or if it is a second ack with the same number,
   beyond those for which the retransmissions so far say that naks are ignored, while blocks
   are pending.
   */
  lemma NakIff(first: nat, window: nat, es: seq<Event>, eventtime: real)
    requires first >= 2 && Run(first, window, es).toHost != []
    ensures var s := Run(first, window, es); var m, h, acks := s.toHost[0], s.host, s.log.acks;
            && 0 <= m.nibble < 16
            && (DeliverStep(s, eventtime).host.timer == Now <==>
                  && m.next == h.receiveSeq
                  && (h.timer == Now
                      || (!m.data && acks != [] && acks[|acks|-1] == m.next && m.next > IgnoreOf(s.log.rewrites)
                          && h.sent != [])))
  {
    hide Run, Step, Inv, HostInv, HandleMessage, Rebuild;
    RunKeeps(first, window, es);
    RunHost(first, window, es);
    MessageUnderstood(Run(first, window, es));
    NakTakenIff(Run(first, window, es).host, Run(first, window, es).log, eventtime, Run(first, window, es).toHost[0]);
  }

  /**
   A nak causes a retransmission only as the second ack with the same number, and of three such
   retransmissions the third comes only when all that the first rewrote is acknowledged.
   */
  lemma NaksDoNotFlood(first: nat, window: nat, es: seq<Event>)
    requires first >= 2
    ensures var naks := Run(first, window, es).log.naks;
            forall i :: 2 <= i < |naks| ==> naks[i-2].sendSeq < naks[i].receiveSeq
    ensures var naks := Run(first, window, es).log.naks;
            forall i :: 1 <= i < |naks| ==> naks[i-1].receiveSeq < naks[i].receiveSeq
    ensures var s := Run(first, window, es); var acks := s.log.acks;
            s.host.timer == Now ==>
              |acks| >= 2 && acks[|acks|-1] == acks[|acks|-2] == s.host.receiveSeq && s.host.sent != []
  {
    hide Run, Step, SentQueue, SentTimes, Karn, Estimated, Asked, Advances, NoticeTimes, Recorded;
    RunHost(first, window, es);
  }

  // ----- recovery -----

  /** The micro-controller works through all that is on the link, with nothing lost. */
  function Drain(s: System): System
    decreases |s.toMcu|
  {
    var t := Step(Step(s, FindBlock), Finish);
    if s.toMcu == [] || s.mcu.busy || |t.toMcu| >= |s.toMcu| then s else Drain(t)
  }

  /** The last blocks on the link are those the micro-controller still lacks. */
  ghost predicate Covers(toMcu: seq<Frame>, next: nat, sendSeq: nat) {
    && 0 <= sendSeq - next <= |toMcu|
    && forall i :: |toMcu| - (sendSeq - next) <= i < |toMcu| ==> toMcu[i].id == sendSeq - |toMcu| + i
  }

  lemma CoversLess(toMcu: seq<Frame>, next: nat, sendSeq: nat)
    requires Covers(toMcu, next, sendSeq) && toMcu != []
    ensures if toMcu[0].id == next then next < sendSeq ==> Covers(toMcu[1..], next + 1, sendSeq)
            else Covers(toMcu[1..], next, sendSeq)
  {
    var rest := toMcu[1..];
    assert forall i :: 0 <= i < |rest| ==> rest[i] == toMcu[i + 1];
  }

  lemma OneFrame(s: System)
    requires Inv(s) && !s.mcu.busy && s.toMcu != [] && Covers(s.toMcu, s.mcu.next, s.host.sendSeq)
    ensures var t := Step(Step(s, FindBlock), Finish);
            && Inv(t) && !t.mcu.busy && t.toMcu == s.toMcu[1..] && t.host == s.host
            && t.log.built == s.log.built && t.log.first == s.log.first
            && Covers(t.toMcu, t.mcu.next, t.host.sendSeq)
            && t.toHost != [] && t.toHost[|t.toHost|-1].next == t.mcu.next
  {
    hide HostInv, Replies, NoticesInOrder, NotMuchOlder, Covers, Relayed;
    FewPending(s);
    var f := s.toMcu[0];
    assert GoodFrame(f, s.mcu.next, s.log.first, s.log.built);
    LooksLikeIs(s.mcu, f, s.log.first, s.log.built);
    CoversLess(s.toMcu, s.mcu.next, s.host.sendSeq);
    StepKeeps(s, FindBlock);
    StepKeeps(Step(s, FindBlock), Finish);
  }

  lemma {:induction false} DrainDispatchesAll(s: System)
    requires Inv(s) && !s.mcu.busy && Covers(s.toMcu, s.mcu.next, s.host.sendSeq)
    ensures var t := Drain(s);
            && Inv(t) && t.mcu.next == t.host.sendSeq && t.host == s.host
            && t.log.built == s.log.built && t.log.first == s.log.first
            && (s.toMcu != [] ==> t.toHost != [] && t.toHost[|t.toHost|-1].next == t.mcu.next)
    decreases |s.toMcu|
  {
    hide Inv, Step, Drain;
    if s.toMcu == [] {
      DrainEmpty(s);
    } else {
      OneFrame(s);
      var t := Step(Step(s, FindBlock), Finish);
      DrainMore(s);
      DrainDispatchesAll(t);
      if t.toMcu == [] { DrainEmpty(t); }
    }
  }

  lemma DrainMore(s: System)
    requires var t := Step(Step(s, FindBlock), Finish); s.toMcu != [] && !s.mcu.busy && t.toMcu == s.toMcu[1..]
    ensures Drain(s) == Drain(Step(Step(s, FindBlock), Finish))
  {
    hide Step;
  }

  lemma DrainEmpty(s: System)
    requires s.toMcu == []
    ensures Drain(s) == s
  {
    hide Step;
  }

  /** The host takes all messages, with nothing lost. */
  function DeliverAll(s: System, eventtime: real): System
    decreases |s.toHost|
  {
    if Enabled(s, Deliver(eventtime)) then DeliverAll(Step(s, Deliver(eventtime)), eventtime) else s
  }

  lemma {:induction false} DeliverAllAcks(s: System, eventtime: real)
    requires Inv(s) && (s.toHost != [] ==> s.toHost[|s.toHost|-1].next == s.mcu.next)
    requires s.toHost == [] ==> s.host.receiveSeq == s.mcu.next
    ensures var t := DeliverAll(s, eventtime);
            && Inv(t) && t.host.receiveSeq == s.mcu.next && t.host.sendSeq == s.host.sendSeq
            && t.mcu == s.mcu && t.log.built == s.log.built && t.log.first == s.log.first
    decreases |s.toHost|
  {
    hide Inv, HandleMessage;
    if s.toHost != [] {
      DeliverKeeps(s, eventtime);
      DeliverAllAcks(Step(s, Deliver(eventtime)), eventtime);
    }
  }

  lemma RetransmitCovers(s: System)
    requires Inv(s)
    ensures Covers(RetransmitStep(s).toMcu, s.mcu.next, s.host.sendSeq)
  {
    hide HostInv, Wire, Replies, NoticesInOrder, Dispatched, Relayed;
    FewPending(s);
    SentHolds(s);
    var t, n := RetransmitStep(s), s.host.sendSeq - s.mcu.next;
    forall i | |t.toMcu| - n <= i < |t.toMcu| ensures t.toMcu[i].id == s.host.sendSeq - |t.toMcu| + i {
      var k := i - |s.toMcu|;
      assert Holds(s.log.first, s.log.built, s.host.receiveSeq + k, s.host.sent[k].frame);
      assert t.toMcu[i] == Frames(s.host.sent)[k];
    }
  }

  /** One round with nothing lost: the pending block is finished, all pending blocks are written again and
      worked through. */
  function GoodRound(s: System, eventtime: real): System {
    DeliverAll(Drain(Step(Step(s, Finish), RetransmitAll)), eventtime)
  }

  /**
   The link cannot get stuck.  After any run, with any losses, while a block is unacknowledged
   one retransmission and one round without loss dispatch and acknowledge every block built.
   */
  lemma OneGoodRoundRecovers(first: nat, window: nat, es: seq<Event>, eventtime: real)
    requires first >= 2 && Run(first, window, es).host.sent != []
    ensures var t := GoodRound(Run(first, window, es), eventtime);
            t.mcu.dispatched == t.log.built == Run(first, window, es).log.built && t.host.sent == []
            && t.host.receiveSeq == Run(first, window, es).host.sendSeq
  {
    hide Run, Step, Inv, Drain, DeliverAll;
    RunKeeps(first, window, es);
    var s := Run(first, window, es);
    FinishedRound(s);
    var t := Step(Step(s, Finish), RetransmitAll);
    DrainDispatchesAll(t);
    DeliverAllAcks(Drain(t), eventtime);
    AllAcknowledged(DeliverAll(Drain(t), eventtime));
  }

  lemma FinishedRound(s: System)
    requires Inv(s) && s.host.sent != []
    ensures var t := Step(Step(s, Finish), RetransmitAll);
            && Inv(t) && !t.mcu.busy && Covers(t.toMcu, t.mcu.next, t.host.sendSeq) && t.toMcu != []
            && t.log.built == s.log.built && t.log.first == s.log.first && t.host.sendSeq == s.host.sendSeq
  {
    hide HostInv, Wire, Replies, NoticesInOrder, Dispatched, Covers, Relayed;
    FewPending(s);
    StepKeeps(s, Finish);
    var u := Step(s, Finish);
    StepKeeps(u, RetransmitAll);
    UnackedTimer(u);
    RetransmitCovers(u);
  }

  lemma UnackedTimer(s: System)
    requires Inv(s) && s.host.sent != []
    ensures s.host.timer != Never && s.log.first <= s.host.receiveSeq
  {
    hide Wire, Replies, NoticesInOrder, Dispatched, Relayed, Karn, Estimated, Advances, NoticeTimes, Recorded, Asked;
    hide AcksKnown;
  }

  lemma AllAcknowledged(s: System)
    requires Inv(s) && s.mcu.next == s.host.receiveSeq == s.host.sendSeq
    ensures s.mcu.dispatched == s.log.built && s.host.sent == []
  {
    hide Wire, Replies, NoticesInOrder, HostInv, Relayed;
    FewPending(s);
  }
}
