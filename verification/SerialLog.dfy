/**
 What the host's end of the link keeps, whatever messages arrive.

 The log records the past of the host.  `HostInv` ties the host's numbers, queues and times to
 it; every operation of the host keeps it, for any message at all.
 */
module SerialLog {
  import opened SerialHost

  /** A retransmission that a nak caused. */
  datatype Nak = Nak(receiveSeq: nat, sendSeq: nat)

  /** The receive number moved on; `beyond` says that this was beyond the last retransmission. */
  datatype Advance = Advance(to: nat, beyond: bool)

  /** A response was handed over while `ack` was the receive number; `beyond` says that this was beyond the last
      retransmission. */
  datatype Answer = Answer(ack: nat, beyond: bool)

  /** All blocks from receiveSeq to sendSeq were written again, because of a nak or of a timeout. */
  datatype Rewrite = Rewrite(receiveSeq: nat, sendSeq: nat, nak: bool)

  /**
   `first` is the number of the first block.  For each block built, `built` has its payload,
   `lens` its length, `sends` how often it was written and `times` the sent time it stands for.
   `wanted` lists the blocks of all notices asked for, `acks` the numbers of the acks taken.
   `rewrites` lists the retransmissions, and `lapses` has for each timeout the number of round
   trips measured before it.  `mark` is the number of the next block when last a round trip was
   measured or blocks were written again.
   */
  datatype History = History(
    first: nat, built: seq<Payload>, sends: seq<nat>, times: seq<real>, wanted: seq<nat>, acks: seq<nat>,
    naks: seq<Nak>, advances: seq<Advance>, lens: seq<nat>, answers: seq<Answer>, rewrites: seq<Rewrite>,
    lapses: seq<nat>, mark: nat)

  function NewHistory(first: nat): History {
    History(first, [], [], [], [], [], [], [], [], [], [], [], first)
  }

  /** One more write for every block not acknowledged yet. */
  function CountSends(sends: seq<nat>, from: nat): (r: seq<nat>)
    ensures |r| == |sends| && forall i :: 0 <= i < |r| ==> r[i] == if i < from then sends[i] else sends[i] + 1
  {
    seq(|sends|, i requires 0 <= i < |sends| => if i < from then sends[i] else sends[i] + 1)
  }

  function LogBuild(log: History, h: Host, payload: Payload, len: nat, notices: nat, receiveTime: real): History {
    log.(built := log.built + [payload], sends := log.sends + [1], times := log.times + [receiveTime],
         lens := log.lens + [len],
         wanted := log.wanted + Repeat(h.sendSeq, notices))
  }

  function LogRetransmit(log: History, h: Host): History
    requires log.first <= h.receiveSeq
  {
    log.(sends := CountSends(log.sends, h.receiveSeq - log.first),
         naks := log.naks + (if h.timer == Now then [Nak(h.receiveSeq, h.sendSeq)] else []),
         rewrites := log.rewrites + [Rewrite(h.receiveSeq, h.sendSeq, h.timer == Now)],
         lapses := log.lapses + (if h.timer == Now then [] else [|h.samples|]), mark := h.sendSeq)
  }

  /** Whether a round trip is measured when blocks up to rseq are acknowledged. */
  predicate Measured(h: Host, rseq: nat) {
    rseq > h.receiveSeq && TakesSample(TakeAcked(h, rseq).(receiveSeq := rseq), rseq)
  }

  function LogAdvance(log: History, h: Host, rseq: nat): History {
    log.(advances := log.advances + (if rseq > h.receiveSeq then [Advance(rseq, rseq > h.retransmitSeq)] else []),
         mark := if Measured(h, rseq) then h.sendSeq else log.mark)
  }

  function LogTake(log: History, retransmitSeq: nat, rseq: nat, m: Message): History {
    log.(acks := log.acks + (if m.data then [] else [rseq]),
         answers := log.answers + (if m.data then [Answer(rseq, rseq > retransmitSeq)] else []))
  }

  function LogHandle(log: History, h: Host, m: Message): History
    requires 0 <= m.nibble < 16
  {
    var rseq := Rebuild(h.receiveSeq, m.nibble);
    if Refused(h, m) then log else LogTake(LogAdvance(log, h, rseq), h.retransmitSeq, rseq, m)
  }

  // ----- the parts of the invariant -----

  predicate IsBlock(first: nat, built: seq<Payload>, id: int) {
    first <= id < first + |built|
  }

  function FrameOf(first: nat, built: seq<Payload>, id: nat): Frame
    requires IsBlock(first, built, id)
  {
    Frame(id, id % 16, built[id - first])
  }

  ghost predicate Holds(first: nat, built: seq<Payload>, id: int, f: Frame) {
    IsBlock(first, built, id) && f == FrameOf(first, built, id)
  }

  ghost predicate Numbers(h: Host, log: History) {
    && 2 <= log.first <= h.receiveSeq <= h.sendSeq <= h.receiveSeq + MAX_PENDING_BLOCKS
    && |log.built| == |log.sends| == |log.times| == h.sendSeq - log.first
    && (h.receiveSeq < h.sendSeq ==> h.timer != Never)
  }

  /** The sent queue holds the blocks from receiveSeq on. */
  ghost predicate SentQueue(sent: seq<Sent>, needAckBytes: int, receiveSeq: nat, first: nat, built: seq<Payload>) {
    && receiveSeq + |sent| == first + |built| && needAckBytes == Bytes(sent)
    && forall i :: 0 <= i < |sent| ==> Holds(first, built, receiveSeq + i, sent[i].frame)
  }

  ghost predicate SentTimes(sent: seq<Sent>, receiveSeq: nat, first: nat, times: seq<real>) {
    && first <= receiveSeq && receiveSeq + |sent| == first + |times|
    && forall i :: 0 <= i < |sent| ==> sent[i].receiveTime == times[receiveSeq - first + i]
  }

  /** Block k was written exactly once. */
  ghost predicate Once(first: nat, sends: seq<nat>, k: int) {
    first <= k < first + |sends| && sends[k - first] == 1
  }

  /** Block k was written more than once. */
  ghost predicate Again(first: nat, sends: seq<nat>, k: int) {
    first <= k < first + |sends| && sends[k - first] > 1
  }

  /** A block still waiting for its ack that was built before the last retransmission was written again. */
  ghost predicate PendingAgain(receiveSeq: nat, retransmitSeq: nat, first: nat, sends: seq<nat>) {
    && (forall i :: 0 <= i < |sends| ==> sends[i] >= 1)
    && (forall k :: receiveSeq <= k < retransmitSeq && first <= k ==> Again(first, sends, k))
  }

  /** What was built after the last retransmission was written once, and so was what a sample may be taken from. */
  ghost predicate FreshOnce(h: Host, first: nat, sends: seq<nat>) {
    && h.retransmitSeq <= h.sendSeq == first + |sends|
    && (h.rttSampleSeq == 0 || h.retransmitSeq <= h.rttSampleSeq)
    && (forall k :: h.retransmitSeq <= k < h.sendSeq && first <= k ==> Once(first, sends, k))
    && (h.receiveSeq == first ==> h.lastReceiveSentTime == 0.0)
  }

  ghost predicate SampledOnce(samples: seq<RoundTrip>, receiveSeq: nat, first: nat, sends: seq<nat>) {
    forall i :: 0 <= i < |samples| ==> samples[i].block < receiveSeq && Once(first, sends, samples[i].block)
  }

  ghost predicate TimedOnce(received: seq<Entry>, receiveSeq: nat, first: nat, sends: seq<nat>) {
    forall i :: 0 <= i < |received| && received[i].Data? && received[i].sentTime != 0.0
      ==> received[i].ack <= receiveSeq && Once(first, sends, received[i].ack - 1)
  }

  /** Karn's rule: times are taken only from blocks written once. */
  ghost predicate Karn(h: Host, first: nat, sends: seq<nat>) {
    && PendingAgain(h.receiveSeq, h.retransmitSeq, first, sends)
    && FreshOnce(h, first, sends) && SampledOnce(h.samples, h.receiveSeq, first, sends)
    && TimedOnce(h.received, h.receiveSeq, first, sends) && MIN_RTO <= h.rto <= MAX_RTO
  }

  /** The smoothed round-trip time and its deviation after a list of round trips. */
  function Mean(samples: seq<RoundTrip>): real {
    if samples == [] then 0.0 else NextMean(Mean(samples[..|samples|-1]), samples[|samples|-1].delta)
  }

  function Deviation(samples: seq<RoundTrip>): real {
    if samples == [] then 0.0
    else
      var before := samples[..|samples|-1];
      NextDeviation(Mean(before), Deviation(before), samples[|samples|-1].delta)
  }

  /** The estimate is made from all round trips measured, and the timeout covers it. */
  ghost predicate Estimated(srtt: real, rttvar: real, rto: real, samples: seq<RoundTrip>) {
    && srtt == Mean(samples) && rttvar == Deviation(samples)
    && (samples != [] ==> rto >= Clamp(srtt + Margin(rttvar)))
  }

  /** The last ack is remembered, and a nak that counts is a second ack with the same number. */
  ghost predicate AcksKnown(h: Host, acks: seq<nat>) {
    && h.lastAckSeq == (if acks == [] then 0 else acks[|acks|-1]) <= h.receiveSeq
    && (h.timer == Now ==>
          && h.sent != [] && h.receiveSeq > h.ignoreNakSeq
          && |acks| >= 2 && acks[|acks|-1] == acks[|acks|-2] == h.receiveSeq)
  }

  /** Each nak that causes a retransmission is further on than the one before, and beyond all that the one
      before that rewrote. */
  ghost predicate NaksAdvance(naks: seq<Nak>) {
    && (forall i :: 1 <= i < |naks| ==> naks[i-1].receiveSeq < naks[i].receiveSeq)
    && (forall i :: 2 <= i < |naks| ==> naks[i-2].sendSeq < naks[i].receiveSeq)
  }

  ghost predicate NaksLimited(h: Host, naks: seq<Nak>) {
    && NaksAdvance(naks) && h.ignoreNakSeq <= h.sendSeq && h.retransmitSeq <= h.sendSeq
    && (naks != [] ==> naks[|naks|-1].sendSeq <= h.retransmitSeq && naks[|naks|-1].receiveSeq <= h.ignoreNakSeq)
    && (|naks| >= 2 ==> naks[|naks|-2].sendSeq <= h.ignoreNakSeq)
  }

  /** Blocks of the notices given so far. */
  function Given(received: seq<Entry>): seq<nat> {
    if received == [] then []
    else
      var last := received[|received|-1];
      Given(received[..|received|-1]) + if last.Notice? then [last.block] else []
  }

  /** Every notice asked for was given or waits, in order. */
  ghost predicate Asked(received: seq<Entry>, notify: seq<nat>, wanted: seq<nat>, first: nat) {
    Given(received) + notify == wanted && forall i :: 0 <= i < |notify| ==> first <= notify[i]
  }

  /** An advance was beyond the last retransmission exactly when the block before it was written once. */
  ghost predicate AdvanceAt(a: Advance, receiveSeq: nat, first: nat, sends: seq<nat>) {
    first < a.to <= receiveSeq && (a.beyond <==> Once(first, sends, a.to - 1))
  }

  /** The advances lead up to the receive number, and the last one left the sent time of the block before it. */
  ghost predicate Advances(receiveSeq: nat, sentTime: real, first: nat, sends: seq<nat>, times: seq<real>,
                           advances: seq<Advance>) {
    && (forall j :: 0 <= j < |advances| ==> AdvanceAt(advances[j], receiveSeq, first, sends))
    && (forall i, j :: 0 <= i < j < |advances| ==> advances[i].to < advances[j].to)
    && if receiveSeq == first then advances == []
       else
         && advances != [] && advances[|advances|-1].to == receiveSeq
         && 0 < receiveSeq - first <= |times| && sentTime == times[receiveSeq - first - 1]
  }

  ghost predicate Reached(advances: seq<Advance>, to: nat) {
    exists j :: 0 <= j < |advances| && advances[j].to == to
  }

  /** A notice carries the sent time of the block before the number acknowledged. */
  ghost predicate NoticeTime(n: Entry, first: nat, times: seq<real>, advances: seq<Advance>)
    requires n.Notice?
  {
    && first <= n.block < n.ack <= first + |times| && n.sentTime == times[n.ack - first - 1]
    && Reached(advances, n.ack)
  }

  ghost predicate NoticeTimes(received: seq<Entry>, first: nat, times: seq<real>, advances: seq<Advance>) {
    forall i :: 0 <= i < |received| && received[i].Notice? ==> NoticeTime(received[i], first, times, advances)
  }

  /** While more than one block is pending, what may be in the receive buffer fits it. */
  ghost predicate InWindow(h: Host) {
    h.window == 0 || |h.sent| <= 1 || h.needAckBytes + Behind(h) <= h.window
  }

  /** The lengths of the pending blocks, and of the last one acknowledged. */
  ghost predicate Lengths(sent: seq<Sent>, lastAckBytes: nat, receiveSeq: nat, first: nat, lens: seq<nat>) {
    && first <= receiveSeq && receiveSeq + |sent| == first + |lens|
    && (forall i :: 0 <= i < |sent| ==> sent[i].len == lens[receiveSeq - first + i])
    && lastAckBytes == if receiveSeq == first then 0 else lens[receiveSeq - first - 1]
  }

  /** The responses among what was handed over. */
  function DataOf(received: seq<Entry>): seq<Entry> {
    if received == [] then []
    else
      var last := received[|received|-1];
      DataOf(received[..|received|-1]) + if last.Data? then [last] else []
  }

  /** A response carries the sent time of the block before the number acknowledged, if there is one and that was
      beyond the last retransmission, and zero otherwise. */
  ghost predicate AnswerAt(e: Entry, a: Answer, first: nat, times: seq<real>) {
    && e.Data? && e.ack == a.ack && first <= a.ack <= first + |times|
    && e.sentTime == if a.beyond && a.ack > first then times[a.ack - first - 1] else 0.0
  }

  ghost predicate AnswerTimes(received: seq<Entry>, answers: seq<Answer>, first: nat, times: seq<real>) {
    && |DataOf(received)| == |answers|
    && forall i :: 0 <= i < |answers| ==> AnswerAt(DataOf(received)[i], answers[i], first, times)
  }

  /** Up to which number naks are ignored: after a timeout, to the last block written again; after a nak, to the
      number it was for or, if that had been written again before, to the last block written again then. */
  function IgnoreOf(rewrites: seq<Rewrite>): nat {
    if rewrites == [] then 0
    else
      var last := rewrites[|rewrites|-1];
      var before := if |rewrites| == 1 then 0 else rewrites[|rewrites|-2].sendSeq;
      if !last.nak then last.sendSeq else if last.receiveSeq < before then before else last.receiveSeq
  }

  ghost predicate RewritesKnown(retransmitSeq: nat, ignoreNakSeq: nat, rewrites: seq<Rewrite>) {
    && retransmitSeq == (if rewrites == [] then 0 else rewrites[|rewrites|-1].sendSeq)
    && ignoreNakSeq == IgnoreOf(rewrites)
  }

  /** The timeout that a list of round trips gives. */
  function BaseOf(samples: seq<RoundTrip>): real {
    if samples == [] then MIN_RTO else Clamp(Mean(samples) + Margin(Deviation(samples)))
  }

  /** Doubled k times, up to the limit. */
  function Backoff(base: real, k: nat): real {
    if k == 0 then base
    else if Backoff(base, k - 1) * 2.0 > MAX_RTO then MAX_RTO else Backoff(base, k - 1) * 2.0
  }

  function CountOf(xs: seq<nat>, x: nat): nat {
    if xs == [] then 0 else CountOf(xs[..|xs|-1], x) + if xs[|xs|-1] == x then 1 else 0
  }

  /** The timeout is that of the round trips measured, doubled for each timeout since the last of them. */
  ghost predicate RtoExact(rto: real, samples: seq<RoundTrip>, lapses: seq<nat>) {
    && rto == Backoff(BaseOf(samples), CountOf(lapses, |samples|))
    && forall i :: 0 <= i < |lapses| ==> lapses[i] <= |samples|
  }

  /** The next round trip is measured from the first block built since the mark. */
  ghost predicate Marked(rttSampleSeq: nat, sendSeq: nat, first: nat, mark: nat) {
    first <= mark <= sendSeq && rttSampleSeq == if mark < sendSeq then mark else 0
  }

  ghost predicate Recorded(h: Host, log: History) {
    && Lengths(h.sent, h.lastAckBytes, h.receiveSeq, log.first, log.lens)
    && AnswerTimes(h.received, log.answers, log.first, log.times)
    && RewritesKnown(h.retransmitSeq, h.ignoreNakSeq, log.rewrites)
    && RtoExact(h.rto, h.samples, log.lapses) && Marked(h.rttSampleSeq, h.sendSeq, log.first, log.mark)
  }

  ghost predicate HostInv(h: Host, log: History) {
    && Numbers(h, log) && InWindow(h)
    && SentQueue(h.sent, h.needAckBytes, h.receiveSeq, log.first, log.built)
    && SentTimes(h.sent, h.receiveSeq, log.first, log.times)
    && Karn(h, log.first, log.sends)
    && Estimated(h.srtt, h.rttvar, h.rto, h.samples)
    && AcksKnown(h, log.acks) && NaksLimited(h, log.naks)
    && Asked(h.received, h.notify, log.wanted, log.first)
    && Advances(h.receiveSeq, h.lastReceiveSentTime, log.first, log.sends, log.times, log.advances)
    && NoticeTimes(h.received, log.first, log.times, log.advances) && Recorded(h, log)
  }

  // ----- building a block -----

  lemma {:induction false} BytesAppend(a: seq<Sent>, b: seq<Sent>)
    ensures Bytes(a + b) == Bytes(a) + Bytes(b)
  {
    if a == [] {
      assert a + b == b;
    } else {
      assert (a + b)[1..] == a[1..] + b;
      BytesAppend(a[1..], b);
    }
  }

  lemma SentMore(sent: seq<Sent>, need: int, receiveSeq: nat, first: nat, built: seq<Payload>, x: Sent)
    requires SentQueue(sent, need, receiveSeq, first, built)
    requires x.frame.id == first + |built| && x.frame.nibble == x.frame.id % 16
    ensures SentQueue(sent + [x], need + x.len, receiveSeq, first, built + [x.frame.payload])
  {
    BytesAppend(sent, [x]);
    assert Bytes([x]) == x.len + Bytes([x][1..]);
    var all := sent + [x];
    forall i | 0 <= i < |all| ensures Holds(first, built + [x.frame.payload], receiveSeq + i, all[i].frame) {
      if i < |sent| { assert Holds(first, built, receiveSeq + i, sent[i].frame); }
    }
  }

  lemma OnceMore(first: nat, sends: seq<nat>, x: nat, k: int)
    requires first <= k < first + |sends|
    ensures Once(first, sends + [x], k) <==> Once(first, sends, k)
  {
  }

  lemma PendingMore(receiveSeq: nat, retransmitSeq: nat, first: nat, sends: seq<nat>)
    requires PendingAgain(receiveSeq, retransmitSeq, first, sends)
    ensures PendingAgain(receiveSeq, retransmitSeq, first, sends + [1])
  {
    forall k | receiveSeq <= k < retransmitSeq && first <= k ensures Again(first, sends + [1], k) {
      assert Again(first, sends, k);
    }
  }

  lemma KarnMore(h: Host, first: nat, sends: seq<nat>, t: Host)
    requires Karn(h, first, sends) && h.sendSeq >= 2
    requires t.sendSeq == h.sendSeq + 1 && t.retransmitSeq == h.retransmitSeq && t.receiveSeq == h.receiveSeq
    requires t.rttSampleSeq == if h.rttSampleSeq == 0 then h.sendSeq else h.rttSampleSeq
    requires t.lastReceiveSentTime == h.lastReceiveSentTime && t.samples == h.samples && t.received == h.received
    requires t.rto == h.rto
    ensures Karn(t, first, sends + [1])
  {
    PendingMore(h.receiveSeq, h.retransmitSeq, first, sends);
    hide PendingAgain;
    forall k | t.retransmitSeq <= k < t.sendSeq && first <= k ensures Once(first, sends + [1], k) {
      if k < h.sendSeq { OnceMore(first, sends, 1, k); }
    }
    forall i | 0 <= i < |h.samples| ensures Once(first, sends + [1], h.samples[i].block) {
      OnceMore(first, sends, 1, h.samples[i].block);
    }
    forall i | 0 <= i < |h.received| && h.received[i].Data? && h.received[i].sentTime != 0.0
      ensures Once(first, sends + [1], h.received[i].ack - 1)
    {
      OnceMore(first, sends, 1, h.received[i].ack - 1);
    }
  }

  lemma AskedMore(received: seq<Entry>, notify: seq<nat>, wanted: seq<nat>, first: nat, more: seq<nat>)
    requires Asked(received, notify, wanted, first) && forall i :: 0 <= i < |more| ==> first <= more[i]
    ensures Asked(received, notify + more, wanted + more, first)
  {
    assert Given(received) + (notify + more) == Given(received) + notify + more;
  }

  lemma AdvancesMore(receiveSeq: nat, sentTime: real, first: nat, sends: seq<nat>, times: seq<real>,
                     advances: seq<Advance>, time: real)
    requires Advances(receiveSeq, sentTime, first, sends, times, advances) && receiveSeq <= first + |sends|
    ensures Advances(receiveSeq, sentTime, first, sends + [1], times + [time], advances)
  {
    forall j | 0 <= j < |advances| ensures AdvanceAt(advances[j], receiveSeq, first, sends + [1]) {
      OnceMore(first, sends, 1, advances[j].to - 1);
    }
  }

  lemma NoticeTimesMore(received: seq<Entry>, first: nat, times: seq<real>, advances: seq<Advance>, time: real)
    requires NoticeTimes(received, first, times, advances)
    ensures NoticeTimes(received, first, times + [time], advances)
  {
    hide Reached;
  }

  lemma RecordedBuild(h: Host, log: History, payload: Payload, len: nat, notices: nat, receiveTime: real)
    requires Recorded(h, log) && h.sendSeq == log.first + |log.times| == h.receiveSeq + |h.sent| && log.first > 0
    ensures Recorded(Build(h, payload, len, notices, receiveTime),
                     LogBuild(log, h, payload, len, notices, receiveTime))
  {
    hide DataOf, IgnoreOf, BaseOf, Backoff, CountOf;
  }

  /** A block is built: all that holds of the host holds with the block. */
  lemma BuildHost(h: Host, log: History, payload: Payload, len: nat, notices: nat, receiveTime: real)
    requires HostInv(h, log) && MaySend(h) && len <= MESSAGE_MAX
    ensures HostInv(Build(h, payload, len, notices, receiveTime), LogBuild(log, h, payload, len, notices, receiveTime))
  {
    hide SentQueue, Karn, Estimated, Asked, NaksAdvance, NoticeTimes, Advances, Recorded;
    RecordedBuild(h, log, payload, len, notices, receiveTime);
    var t := Build(h, payload, len, notices, receiveTime);
    SentMore(h.sent, h.needAckBytes, h.receiveSeq, log.first, log.built, Sent(NextFrame(h, payload), len, receiveTime));
    KarnMore(h, log.first, log.sends, t);
    AskedMore(h.received, h.notify, log.wanted, log.first, Repeat(h.sendSeq, notices));
    AdvancesMore(h.receiveSeq, h.lastReceiveSentTime, log.first, log.sends, log.times, log.advances, receiveTime);
    NoticeTimesMore(h.received, log.first, log.times, log.advances, receiveTime);
  }

  // ----- writing all pending blocks again -----

  lemma PendingWritten(receiveSeq: nat, retransmitSeq: nat, first: nat, sends: seq<nat>)
    requires PendingAgain(receiveSeq, retransmitSeq, first, sends) && first <= receiveSeq
    ensures PendingAgain(receiveSeq, first + |sends|, first, CountSends(sends, receiveSeq - first))
  {
    var more := CountSends(sends, receiveSeq - first);
    forall k | receiveSeq <= k < first + |sends| && first <= k ensures Again(first, more, k) {
      assert more[k - first] == sends[k - first] + 1;
    }
  }

  lemma KarnAgain(h: Host, first: nat, sends: seq<nat>)
    requires Karn(h, first, sends) && first <= h.receiveSeq
    ensures Karn(Retransmit(h), first, CountSends(sends, h.receiveSeq - first))
  {
    PendingWritten(h.receiveSeq, h.retransmitSeq, first, sends);
    hide PendingAgain;
    var more := CountSends(sends, h.receiveSeq - first);
    assert forall k {:trigger Once(first, more, k)} ::
      k < h.receiveSeq && Once(first, sends, k) ==> Once(first, more, k);
    forall i | 0 <= i < |h.samples| ensures Once(first, more, h.samples[i].block) {
      assert Once(first, sends, h.samples[i].block);
    }
  }

  lemma AdvanceSnoc(naks: seq<Nak>, x: Nak)
    requires NaksAdvance(naks) && (naks != [] ==> naks[|naks|-1].receiveSeq < x.receiveSeq)
    requires |naks| >= 2 ==> naks[|naks|-2].sendSeq < x.receiveSeq
    ensures NaksAdvance(naks + [x])
  {
  }

  lemma NakAgain(h: Host, acks: seq<nat>, naks: seq<Nak>)
    requires AcksKnown(h, acks) && NaksLimited(h, naks) && h.receiveSeq <= h.sendSeq
    ensures AcksKnown(Retransmit(h), acks)
    ensures NaksLimited(Retransmit(h), naks + if h.timer == Now then [Nak(h.receiveSeq, h.sendSeq)] else [])
  {
    hide NaksAdvance;
    if h.timer != Now {
      assert naks + [] == naks;
    } else {
      AdvanceSnoc(naks, Nak(h.receiveSeq, h.sendSeq));
    }
  }

  lemma AdvancesAgain(receiveSeq: nat, sentTime: real, first: nat, sends: seq<nat>, times: seq<real>,
                      advances: seq<Advance>)
    requires Advances(receiveSeq, sentTime, first, sends, times, advances) && first <= receiveSeq
    ensures Advances(receiveSeq, sentTime, first, CountSends(sends, receiveSeq - first), times, advances)
  {
    var more := CountSends(sends, receiveSeq - first);
    forall j | 0 <= j < |advances| ensures AdvanceAt(advances[j], receiveSeq, first, more) {
      assert AdvanceAt(advances[j], receiveSeq, first, sends);
    }
  }

  lemma EstimatedAgain(h: Host)
    requires Estimated(h.srtt, h.rttvar, h.rto, h.samples) && MIN_RTO <= h.rto <= MAX_RTO
    ensures var t := Retransmit(h); Estimated(t.srtt, t.rttvar, t.rto, t.samples)
  {
    hide Mean, Deviation;
  }

  lemma LapseExact(rto: real, samples: seq<RoundTrip>, lapses: seq<nat>)
    requires RtoExact(rto, samples, lapses)
    ensures RtoExact(if rto * 2.0 > MAX_RTO then MAX_RTO else rto * 2.0, samples, lapses + [|samples|])
  {
    hide BaseOf;
    assert (lapses + [|samples|])[..|lapses|] == lapses;
  }

  lemma RewritesAgain(h: Host, log: History)
    requires RewritesKnown(h.retransmitSeq, h.ignoreNakSeq, log.rewrites)
    ensures var t := Retransmit(h);
            RewritesKnown(t.retransmitSeq, t.ignoreNakSeq,
                          log.rewrites + [Rewrite(h.receiveSeq, h.sendSeq, h.timer == Now)])
  {
  }

  lemma RecordedAgain(h: Host, log: History)
    requires Recorded(h, log) && log.first <= h.receiveSeq <= h.sendSeq
    ensures Recorded(Retransmit(h), LogRetransmit(log, h))
  {
    hide AnswerTimes, Lengths, RtoExact, RewritesKnown, CountSends;
    RewritesAgain(h, log);
    if h.timer == Now {
      assert log.lapses + [] == log.lapses;
    } else {
      LapseExact(h.rto, h.samples, log.lapses);
    }
  }

  lemma RetransmitHost(h: Host, log: History)
    requires HostInv(h, log)
    ensures HostInv(Retransmit(h), LogRetransmit(log, h))
  {
    hide SentQueue, SentTimes, PendingAgain, FreshOnce, SampledOnce, TimedOnce, Estimated, Asked, AcksKnown;
    hide NaksLimited, NoticeTimes, Recorded, Advances, CountSends, CountOf, Backoff, IgnoreOf;
    RecordedAgain(h, log);
    NakAgain(h, log.acks, log.naks);
    KarnAgain(h, log.first, log.sends);
    EstimatedAgain(h);
    AdvancesAgain(h.receiveSeq, h.lastReceiveSentTime, log.first, log.sends, log.times, log.advances);
  }

  // ----- taking a message -----

  /** The full number is rebuilt from four bits, for any number less than sixteen ahead. */
  lemma RebuildExact(receiveSeq: nat, x: nat)
    requires receiveSeq <= x < receiveSeq + 16
    ensures Rebuild(receiveSeq, x % 16) == x
  {
  }

  lemma SentLess(sent: seq<Sent>, need: int, receiveSeq: nat, first: nat, built: seq<Payload>, n: nat)
    requires SentQueue(sent, need, receiveSeq, first, built) && n <= |sent|
    ensures SentQueue(sent[n..], need - Bytes(sent[..n]), receiveSeq + n, first, built)
  {
    BytesAppend(sent[..n], sent[n..]);
    assert sent[..n] + sent[n..] == sent;
    forall i | 0 <= i < |sent[n..]| ensures Holds(first, built, receiveSeq + n + i, sent[n..][i].frame) {
      assert Holds(first, built, receiveSeq + (n + i), sent[n + i].frame);
    }
  }

  lemma TimesLess(sent: seq<Sent>, receiveSeq: nat, first: nat, times: seq<real>, n: nat)
    requires SentTimes(sent, receiveSeq, first, times) && n <= |sent|
    ensures SentTimes(sent[n..], receiveSeq + n, first, times)
    ensures n > 0 ==> sent[n-1].receiveTime == times[receiveSeq + n - first - 1]
  {
  }

  lemma KarnUpdate(h: Host, first: nat, sends: seq<nat>, rseq: nat, eventtime: real)
    requires Karn(h, first, sends) && first <= h.receiveSeq < rseq <= h.sendSeq && rseq - h.receiveSeq <= |h.sent|
    ensures Karn(UpdateReceiveSeq(h, eventtime, rseq), first, sends)
  {
    hide Mean, Deviation, NextMean, NextDeviation, Margin;
    var taken := TakeAcked(h, rseq).(receiveSeq := rseq);
    if TakesSample(taken, rseq) { assert Once(first, sends, rseq - 1); }
  }

  lemma EstimatedMore(srtt: real, rttvar: real, rto: real, samples: seq<RoundTrip>, x: RoundTrip)
    requires Estimated(srtt, rttvar, rto, samples)
    ensures var m := NextMean(srtt, x.delta); var d := NextDeviation(srtt, rttvar, x.delta);
            Estimated(m, d, Clamp(m + Margin(d)), samples + [x])
  {
    assert (samples + [x])[..|samples|] == samples;
  }

  lemma EstimatedUpdate(h: Host, rseq: nat, eventtime: real)
    requires Estimated(h.srtt, h.rttvar, h.rto, h.samples) && h.receiveSeq < rseq && rseq - h.receiveSeq <= |h.sent|
    ensures var t := UpdateReceiveSeq(h, eventtime, rseq); Estimated(t.srtt, t.rttvar, t.rto, t.samples)
  {
    hide Estimated, Bytes, Clamp, Margin, NextMean, NextDeviation;
    var taken := TakeAcked(h, rseq).(receiveSeq := rseq);
    EstimatedMore(h.srtt, h.rttvar, h.rto, h.samples, RoundTrip(rseq - 1, eventtime - taken.lastReceiveSentTime));
  }

  lemma AcksUpdate(h: Host, acks: seq<nat>, naks: seq<Nak>, eventtime: real, rseq: nat)
    requires AcksKnown(h, acks) && NaksLimited(h, naks) && h.receiveSeq < rseq && rseq - h.receiveSeq <= |h.sent|
    ensures var t := UpdateReceiveSeq(h, eventtime, rseq); AcksKnown(t, acks) && NaksLimited(t, naks)
  {
    hide NaksAdvance, Bytes, Clamp, Margin, NextMean, NextDeviation;
  }

  /** A pending block was written once exactly when it is not before the last retransmission. */
  lemma PendingOnceIff(h: Host, first: nat, sends: seq<nat>, k: nat)
    requires Karn(h, first, sends) && first <= h.receiveSeq <= k < h.sendSeq
    ensures Once(first, sends, k) <==> k >= h.retransmitSeq
  {
    assert k < h.retransmitSeq ==> Again(first, sends, k);
    assert k >= h.retransmitSeq ==> Once(first, sends, k);
  }

  lemma AdvancesOn(receiveSeq: nat, sentTime: real, first: nat, sends: seq<nat>, times: seq<real>,
                   advances: seq<Advance>, a: Advance, sentTime': real)
    requires Advances(receiveSeq, sentTime, first, sends, times, advances) && first <= receiveSeq < a.to
    requires a.to - first <= |times| && sentTime' == times[a.to - first - 1]
    requires a.beyond <==> Once(first, sends, a.to - 1)
    ensures Advances(a.to, sentTime', first, sends, times, advances + [a])
  {
    var more := advances + [a];
    forall j | 0 <= j < |more| ensures AdvanceAt(more[j], a.to, first, sends) {
      if j < |advances| { assert AdvanceAt(advances[j], receiveSeq, first, sends); }
    }
  }

  lemma NoticeTimesOn(received: seq<Entry>, first: nat, times: seq<real>, advances: seq<Advance>, a: Advance)
    requires NoticeTimes(received, first, times, advances)
    ensures NoticeTimes(received, first, times, advances + [a])
  {
    forall i | 0 <= i < |received| && received[i].Notice?
      ensures NoticeTime(received[i], first, times, advances + [a])
    {
      var n := received[i];
      assert NoticeTime(n, first, times, advances);
      var j :| 0 <= j < |advances| && advances[j].to == n.ack;
      assert (advances + [a])[j].to == n.ack;
    }
  }

  lemma WindowUpdate(h: Host, eventtime: real, rseq: nat)
    requires InWindow(h) && h.receiveSeq < rseq && rseq - h.receiveSeq <= |h.sent|
    ensures InWindow(UpdateReceiveSeq(h, eventtime, rseq))
  {
    hide Clamp, Margin, NextMean, NextDeviation;
    LastIn(h.sent[..rseq - h.receiveSeq]);
  }

  lemma {:induction false} LastIn(sent: seq<Sent>)
    requires sent != []
    ensures sent[|sent|-1].len <= Bytes(sent)
  {
    if |sent| > 1 { LastIn(sent[1..]); }
  }

  lemma UpdateFields(h: Host, eventtime: real, rseq: nat)
    requires rseq > h.receiveSeq && rseq - h.receiveSeq <= |h.sent|
    ensures var n := rseq - h.receiveSeq; var t := UpdateReceiveSeq(h, eventtime, rseq);
            && t.receiveSeq == rseq && t.sendSeq == h.sendSeq && t.received == h.received && t.notify == h.notify
            && t.sent == h.sent[n..] && t.needAckBytes == h.needAckBytes - Bytes(h.sent[..n])
            && t.lastReceiveSentTime == h.sent[n-1].receiveTime && (t.sent != [] ==> t.timer != Never)
            && t.retransmitSeq == h.retransmitSeq
  {
    hide Bytes, Clamp, Margin, NextMean, NextDeviation;
  }

  lemma {:induction false} CountNone(xs: seq<nat>, x: nat)
    requires forall i :: 0 <= i < |xs| ==> xs[i] != x
    ensures CountOf(xs, x) == 0
  {
    if xs != [] { CountNone(xs[..|xs|-1], x); }
  }

  lemma SampleExact(h: Host, rseq: nat, eventtime: real, lapses: seq<nat>)
    requires h.receiveSeq < rseq && RtoExact(h.rto, h.samples, lapses) && rseq - h.receiveSeq <= |h.sent|
    requires Estimated(h.srtt, h.rttvar, h.rto, h.samples)
    ensures var t := UpdateReceiveSeq(h, eventtime, rseq); RtoExact(t.rto, t.samples, lapses)
  {
    hide Backoff, Bytes, Clamp, Margin, NextMean, NextDeviation;
    var taken := TakeAcked(h, rseq).(receiveSeq := rseq);
    if TakesSample(taken, rseq) {
      var x := RoundTrip(rseq - 1, eventtime - taken.lastReceiveSentTime);
      CountNone(lapses, |h.samples| + 1);
      assert (h.samples + [x])[..|h.samples|] == h.samples;
      BackoffNone(BaseOf(h.samples + [x]));
    }
  }

  lemma BackoffNone(base: real)
    ensures Backoff(base, 0) == base
  {
  }

  lemma RecordedAdvance(h: Host, log: History, eventtime: real, rseq: nat)
    requires Recorded(h, log) && h.receiveSeq < rseq <= h.sendSeq && rseq - h.receiveSeq <= |h.sent|
    requires Estimated(h.srtt, h.rttvar, h.rto, h.samples)
    ensures Recorded(UpdateReceiveSeq(h, eventtime, rseq), LogAdvance(log, h, rseq))
  {
    hide RtoExact, AnswerTimes, IgnoreOf, Estimated, Bytes, Clamp, Margin, NextMean, NextDeviation;
    SampleExact(h, rseq, eventtime, log.lapses);
  }

  /** When a round trip is measured, and which. */
  lemma MeasuredIff(h: Host, log: History, eventtime: real, rseq: nat)
    requires HostInv(h, log) && h.receiveSeq < rseq <= h.sendSeq
    ensures log.first < rseq <= log.first + |log.times|
    ensures var time := log.times[rseq - log.first - 1];
            var measured := if log.mark < rseq && time != 0.0 then [RoundTrip(rseq - 1, eventtime - time)] else [];
            UpdateReceiveSeq(h, eventtime, rseq).samples == h.samples + measured
  {
    hide Karn, Estimated, AcksKnown, NaksLimited, Asked, Advances, NoticeTimes, Bytes, InWindow, AnswerTimes;
    hide RewritesKnown, RtoExact, Lengths, Clamp, Margin, NextMean, NextDeviation;
    TimesLess(h.sent, h.receiveSeq, log.first, log.times, rseq - h.receiveSeq);
    assert h.samples + [] == h.samples;
  }

  /** Blocks up to rseq are acknowledged. */
  lemma AdvanceHost(h: Host, log: History, eventtime: real, rseq: nat)
    requires HostInv(h, log) && h.receiveSeq < rseq <= h.sendSeq
    ensures HostInv(UpdateReceiveSeq(h, eventtime, rseq), LogAdvance(log, h, rseq))
  {
    hide UpdateReceiveSeq, Karn, Estimated, AcksKnown, NaksLimited, Asked, Advances, NoticeTimes, Bytes, InWindow;
    hide Recorded, Measured;
    RecordedAdvance(h, log, eventtime, rseq);
    var n := rseq - h.receiveSeq;
    UpdateFields(h, eventtime, rseq);
    SentLess(h.sent, h.needAckBytes, h.receiveSeq, log.first, log.built, n);
    TimesLess(h.sent, h.receiveSeq, log.first, log.times, n);
    KarnUpdate(h, log.first, log.sends, rseq, eventtime);
    WindowUpdate(h, eventtime, rseq);
    EstimatedUpdate(h, rseq, eventtime);
    AcksUpdate(h, log.acks, log.naks, eventtime, rseq);
    PendingOnceIff(h, log.first, log.sends, rseq - 1);
    var a := Advance(rseq, rseq > h.retransmitSeq);
    AdvancesOn(h.receiveSeq, h.lastReceiveSentTime, log.first, log.sends, log.times, log.advances, a,
               h.sent[n-1].receiveTime);
    NoticeTimesOn(h.received, log.first, log.times, log.advances, a);
  }

  lemma {:induction false} RipeAreDue(notify: seq<nat>, wakeSeq: int, i: nat)
    requires i < Ripe(notify, wakeSeq)
    ensures notify[i] <= wakeSeq
  {
    if i > 0 { RipeAreDue(notify[1..], wakeSeq, i - 1); }
  }

  lemma {:induction false} GivenNotices(received: seq<Entry>, blocks: seq<nat>, sentTime: real, ack: nat)
    ensures Given(received + Notices(blocks, sentTime, ack)) == Given(received) + blocks
  {
    var all := received + Notices(blocks, sentTime, ack);
    if blocks == [] {
      assert all == received;
    } else {
      var n := |blocks| - 1;
      assert all[..|all|-1] == received + Notices(blocks[..n], sentTime, ack);
      GivenNotices(received, blocks[..n], sentTime, ack);
      assert blocks[..n] + [blocks[n]] == blocks;
    }
  }

  lemma AskedRelease(received: seq<Entry>, notify: seq<nat>, wanted: seq<nat>, first: nat, n: nat, sentTime: real,
                     ack: nat)
    requires Asked(received, notify, wanted, first) && n <= |notify|
    ensures Asked(received + Notices(notify[..n], sentTime, ack), notify[n..], wanted, first)
  {
    hide Given, Notices;
    GivenNotices(received, notify[..n], sentTime, ack);
    assert Given(received) + notify[..n] + notify[n..] == Given(received) + notify;
  }

  lemma NoticeTimesRelease(received: seq<Entry>, first: nat, times: seq<real>, advances: seq<Advance>,
                           blocks: seq<nat>, sentTime: real, ack: nat)
    requires NoticeTimes(received, first, times, advances) && forall i :: 0 <= i < |blocks| ==> first <= blocks[i] < ack
    requires blocks != [] ==>
      first < ack <= first + |times| && sentTime == times[ack - first - 1] && Reached(advances, ack)
    ensures NoticeTimes(received + Notices(blocks, sentTime, ack), first, times, advances)
  {
    hide Reached;
  }

  lemma KarnRelease(h: Host, first: nat, sends: seq<nat>, wakeSeq: int)
    requires Karn(h, first, sends)
    ensures Karn(ReleaseNotices(h, wakeSeq), first, sends)
  {
    hide Ripe;
  }

  lemma LastReached(receiveSeq: nat, sentTime: real, first: nat, sends: seq<nat>, times: seq<real>,
                    advances: seq<Advance>)
    requires Advances(receiveSeq, sentTime, first, sends, times, advances) && first < receiveSeq
    ensures Reached(advances, receiveSeq) && receiveSeq <= first + |times| && sentTime == times[receiveSeq - first - 1]
  {
  }

  lemma {:induction false} DataOfNotices(received: seq<Entry>, blocks: seq<nat>, sentTime: real, ack: nat)
    ensures DataOf(received + Notices(blocks, sentTime, ack)) == DataOf(received)
  {
    var all := received + Notices(blocks, sentTime, ack);
    if blocks == [] {
      assert all == received;
    } else {
      var n := |blocks| - 1;
      assert all[..|all|-1] == received + Notices(blocks[..n], sentTime, ack);
      DataOfNotices(received, blocks[..n], sentTime, ack);
    }
  }

  lemma RecordedRelease(h: Host, log: History, wakeSeq: int)
    requires Recorded(h, log)
    ensures Recorded(ReleaseNotices(h, wakeSeq), log)
  {
    hide DataOf, IgnoreOf, RtoExact, Ripe, Notices, Lengths;
    DataOfNotices(h.received, h.notify[..Ripe(h.notify, wakeSeq)], h.lastReceiveSentTime, h.receiveSeq);
  }

  /** Notices of acknowledged blocks are handed over. */
  lemma ReleaseHost(h: Host, log: History, wakeSeq: int)
    requires HostInv(h, log) && wakeSeq < h.receiveSeq
    ensures HostInv(ReleaseNotices(h, wakeSeq), log)
  {
    hide SentQueue, SentTimes, Karn, Estimated, Advances, NaksAdvance, NoticeTimes, Ripe, Recorded;
    RecordedRelease(h, log, wakeSeq);
    var n := Ripe(h.notify, wakeSeq);
    forall i | 0 <= i < n ensures h.notify[i] <= wakeSeq {
      RipeAreDue(h.notify, wakeSeq, i);
    }
    KarnRelease(h, log.first, log.sends, wakeSeq);
    AskedRelease(h.received, h.notify, log.wanted, log.first, n, h.lastReceiveSentTime, h.receiveSeq);
    if n > 0 {
      LastReached(h.receiveSeq, h.lastReceiveSentTime, log.first, log.sends, log.times, log.advances);
    }
    NoticeTimesRelease(h.received, log.first, log.times, log.advances, h.notify[..n],
                       h.lastReceiveSentTime, h.receiveSeq);
  }

  lemma KarnTake(h: Host, first: nat, sends: seq<nat>, m: Message)
    requires Karn(h, first, sends) && first <= h.receiveSeq <= h.sendSeq && h.receiveSeq > 0
    ensures Karn(TakeMessage(h, h.receiveSeq, m), first, sends)
  {
    if m.data && h.receiveSeq > h.retransmitSeq && h.lastReceiveSentTime != 0.0 {
      assert Once(first, sends, h.receiveSeq - 1);
    }
  }

  lemma WindowTake(h: Host, m: Message)
    requires InWindow(h)
    ensures InWindow(TakeMessage(h, h.receiveSeq, m))
  {
  }

  lemma AcksTake(h: Host, acks: seq<nat>, naks: seq<Nak>, m: Message)
    requires AcksKnown(h, acks) && NaksLimited(h, naks)
    ensures var t := TakeMessage(h, h.receiveSeq, m);
            AcksKnown(t, acks + if m.data then [] else [h.receiveSeq]) && NaksLimited(t, naks)
  {
    hide NaksAdvance;
    if m.data { assert acks + [] == acks; }
  }

  lemma ReceivedData(received: seq<Entry>, e: Entry, notify: seq<nat>, wanted: seq<nat>, first: nat, times: seq<real>,
                     advances: seq<Advance>)
    requires e.Data? && Asked(received, notify, wanted, first) && NoticeTimes(received, first, times, advances)
    ensures Asked(received + [e], notify, wanted, first) && NoticeTimes(received + [e], first, times, advances)
  {
    hide Reached;
    assert (received + [e])[..|received|] == received;
  }

  lemma DataOfSnoc(received: seq<Entry>, e: Entry)
    requires e.Data?
    ensures DataOf(received + [e]) == DataOf(received) + [e]
  {
    assert (received + [e])[..|received|] == received;
  }

  lemma AnswersSnoc(received: seq<Entry>, answers: seq<Answer>, first: nat, times: seq<real>, e: Entry, a: Answer)
    requires AnswerTimes(received, answers, first, times) && AnswerAt(e, a, first, times)
    ensures AnswerTimes(received + [e], answers + [a], first, times)
  {
    hide DataOf, AnswerAt;
    assert e.Data? by { AnswerIsData(e, a, first, times); }
    DataOfSnoc(received, e);
    forall i | 0 <= i < |answers| + 1
      ensures AnswerAt(DataOf(received + [e])[i], (answers + [a])[i], first, times)
    {
      assert i < |answers| ==> AnswerAt(DataOf(received)[i], answers[i], first, times);
    }
  }

  lemma AnswerIsData(e: Entry, a: Answer, first: nat, times: seq<real>)
    requires AnswerAt(e, a, first, times)
    ensures e.Data?
  {
  }

  lemma RecordedTake(h: Host, log: History, m: Message)
    requires Recorded(h, log) && log.first <= h.receiveSeq <= log.first + |log.times|
    requires h.lastReceiveSentTime ==
               if h.receiveSeq == log.first then 0.0 else log.times[h.receiveSeq - log.first - 1]
    ensures Recorded(TakeMessage(h, h.receiveSeq, m), LogTake(log, h.retransmitSeq, h.receiveSeq, m))
  {
    hide IgnoreOf, RtoExact, Lengths, AnswerTimes, Marked;
    if m.data {
      var t := TakeMessage(h, h.receiveSeq, m);
      var a := Answer(h.receiveSeq, h.receiveSeq > h.retransmitSeq);
      AnswersSnoc(h.received, log.answers, log.first, log.times, t.received[|h.received|], a);
    } else {
      assert log.answers + [] == log.answers;
    }
  }

  /** The sent time kept is that of the block before the receive number. */
  lemma LastTime(h: Host, log: History)
    requires HostInv(h, log)
    ensures log.first <= h.receiveSeq <= log.first + |log.times|
    ensures h.lastReceiveSentTime ==
              if h.receiveSeq == log.first then 0.0 else log.times[h.receiveSeq - log.first - 1]
  {
    hide SentQueue, SentTimes, Estimated, AcksKnown, NaksLimited, Asked, NoticeTimes, InWindow, Recorded;
  }

  /** The message is taken as data, as an ack, or as a nak. */
  lemma TakeHost(h: Host, log: History, m: Message)
    requires HostInv(h, log)
    ensures HostInv(TakeMessage(h, h.receiveSeq, m), LogTake(log, h.retransmitSeq, h.receiveSeq, m))
  {
    hide SentQueue, SentTimes, Karn, Estimated, Advances, AcksKnown, NaksLimited, Asked, NoticeTimes, InWindow;
    hide Recorded;
    LastTime(h, log);
    RecordedTake(h, log, m);
    WindowTake(h, m);
    KarnTake(h, log.first, log.sends, m);
    AcksTake(h, log.acks, log.naks, m);
    if m.data {
      var t := TakeMessage(h, h.receiveSeq, m);
      ReceivedData(h.received, t.received[|h.received|], h.notify, log.wanted, log.first, log.times, log.advances);
    }
  }

  /** The host after the first part of a message: the acknowledged blocks are gone. */
  function Advanced(h: Host, eventtime: real, rseq: nat): Host {
    if rseq > h.receiveSeq then UpdateReceiveSeq(h, eventtime, rseq) else h
  }

  function WakeSeq(rseq: nat, m: Message): int {
    rseq - 1 - if m.data then 1 else 0
  }

  /** A message in three parts. */
  lemma HandleParts(h: Host, eventtime: real, m: Message)
    requires 0 <= m.nibble < 16 && !Refused(h, m)
    ensures var rseq := Rebuild(h.receiveSeq, m.nibble);
            && rseq >= h.receiveSeq
            && HandleMessage(h, eventtime, m) ==
                 TakeMessage(ReleaseNotices(Advanced(h, eventtime, rseq), WakeSeq(rseq, m)), rseq, m)
  {
    hide UpdateReceiveSeq, ReleaseNotices, TakeMessage;
  }

  lemma AdvancedHost(h: Host, log: History, eventtime: real, rseq: nat)
    requires HostInv(h, log) && h.receiveSeq <= rseq <= h.sendSeq
    ensures HostInv(Advanced(h, eventtime, rseq), LogAdvance(log, h, rseq))
    ensures var t := Advanced(h, eventtime, rseq);
            t.receiveSeq == rseq && t.sendSeq == h.sendSeq && t.received == h.received && t.notify == h.notify
            && t.retransmitSeq == h.retransmitSeq
  {
    hide HostInv, UpdateReceiveSeq;
    if rseq > h.receiveSeq {
      AdvanceHost(h, log, eventtime, rseq);
      EnoughSent(h, log, rseq);
      UpdateFields(h, eventtime, rseq);
    } else {
      assert log.advances + [] == log.advances;
    }
  }

  lemma EnoughSent(h: Host, log: History, rseq: nat)
    requires HostInv(h, log) && h.receiveSeq <= rseq <= h.sendSeq
    ensures rseq - h.receiveSeq <= |h.sent|
  {
    hide Karn, Estimated, Advances, NoticeTimes, Recorded, Asked, AcksKnown, NaksLimited;
  }

  /** A number beyond the last block sent is refused. */
  lemma RefusedBeyond(h: Host, log: History, m: Message)
    requires HostInv(h, log) && 0 <= m.nibble < 16
    ensures Refused(h, m) <==> Rebuild(h.receiveSeq, m.nibble) > h.sendSeq
  {
    hide SentQueue, SentTimes, Karn, Estimated, Advances, NoticeTimes, Recorded, Asked, AcksKnown, NaksLimited;
  }

  /** Whatever message arrives, all that holds of the host holds after it. */
  lemma HandleHost(h: Host, log: History, eventtime: real, m: Message)
    requires HostInv(h, log) && 0 <= m.nibble < 16
    ensures HostInv(HandleMessage(h, eventtime, m), LogHandle(log, h, m))
  {
    hide HostInv, Rebuild, Refused, HandleMessage, Advanced, ReleaseNotices, TakeMessage;
    var rseq := Rebuild(h.receiveSeq, m.nibble);
    if Refused(h, m) {
      RefusedSame(h, eventtime, m);
    } else {
      RefusedBeyond(h, log, m);
      HandleParts(h, eventtime, m);
      AdvancedHost(h, log, eventtime, rseq);
      var t, l := Advanced(h, eventtime, rseq), LogAdvance(log, h, rseq);
      ReleaseHost(t, l, WakeSeq(rseq, m));
      ReleasedSeq(t, WakeSeq(rseq, m));
      TakeHost(ReleaseNotices(t, WakeSeq(rseq, m)), l, m);
    }
  }

  /**
   Blocks are to be written again at once exactly when that was so before and the receive
   number stays, or when the message is a second ack with the same number, beyond those for
   which naks are ignored, while blocks are pending.
   */
  lemma NakTakenIff(h: Host, log: History, eventtime: real, m: Message)
    requires HostInv(h, log) && 0 <= m.nibble < 16 && !Refused(h, m)
    ensures var rseq := Rebuild(h.receiveSeq, m.nibble);
            HandleMessage(h, eventtime, m).timer == Now <==>
              && rseq == h.receiveSeq
              && (h.timer == Now
                  || (!m.data && log.acks != [] && log.acks[|log.acks|-1] == rseq && rseq > IgnoreOf(log.rewrites)
                      && h.sent != []))
  {
    hide SentQueue, SentTimes, Karn, Estimated, Advances, NaksLimited, Asked, NoticeTimes, InWindow;
    hide IgnoreOf, RtoExact, AnswerTimes, Lengths, Marked, UpdateReceiveSeq, Rebuild, Ripe, Refused;
    HandleParts(h, eventtime, m);
    var rseq := Rebuild(h.receiveSeq, m.nibble);
    if rseq > h.receiveSeq { AdvancedTimer(h, eventtime, rseq); }
  }

  lemma AdvancedTimer(h: Host, eventtime: real, rseq: nat)
    requires rseq > h.receiveSeq
    ensures var t := UpdateReceiveSeq(h, eventtime, rseq); t.timer != Now && t.lastAckSeq == h.lastAckSeq
  {
    hide Bytes;
  }

  lemma RefusedSame(h: Host, eventtime: real, m: Message)
    requires 0 <= m.nibble < 16 && Refused(h, m)
    ensures HandleMessage(h, eventtime, m) == h
  {
  }

  lemma ReleasedSeq(h: Host, wakeSeq: int)
    ensures var t := ReleaseNotices(h, wakeSeq);
            t.receiveSeq == h.receiveSeq && t.sendSeq == h.sendSeq && t.retransmitSeq == h.retransmitSeq
  {
  }
}
