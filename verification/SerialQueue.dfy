/**
 The host's end of the link as it is kept in memory, operation by operation.

 Whatever messages arrive, every operation keeps `Valid`: the sent queue is what is not
 acknowledged, times come only from blocks written once, naks are limited, notices are kept
 in order, and the log says which block each sent time belongs to.
 */
module SerialQueue {
  import opened SerialHost
  import opened SerialLog

  class Queue {
    const window: nat
    var sendSeq: nat
    var receiveSeq: nat
    var ignoreNakSeq: nat
    var lastAckSeq: nat
    var retransmitSeq: nat
    var rttSampleSeq: nat
    var sent: seq<Sent>
    var needAckBytes: int
    var lastAckBytes: nat
    var lastReceiveSentTime: real
    var srtt: real
    var rttvar: real
    var rto: real
    var notify: seq<nat>
    var received: seq<Entry>
    var timer: Timer
    ghost var samples: seq<RoundTrip>
    ghost var log: History

    ghost function Model(): Host
      reads this
    {
      Host(window, sendSeq, receiveSeq, ignoreNakSeq, lastAckSeq, retransmitSeq, rttSampleSeq, sent, needAckBytes,
           lastAckBytes, lastReceiveSentTime, srtt, rttvar, rto, notify, received, timer, samples)
    }

    ghost predicate Valid()
      reads this
    {
      HostInv(Model(), log)
    }

    /** Both ends agree on the number of the first block. */
    constructor (first: nat, window: nat)
      requires first >= 2
      ensures Valid() && log == NewHistory(first) && this.window == window
      ensures Model() == Host(window, first, first, 0, 0, 0, 0, [], 0, 0, 0.0, 0.0, 0.0, MIN_RTO, [], [], Never, [])
    {
      hide HostInv;
      this.window := window;
      sendSeq, receiveSeq, ignoreNakSeq, lastAckSeq, retransmitSeq, rttSampleSeq := first, first, 0, 0, 0, 0;
      sent, needAckBytes, lastAckBytes, lastReceiveSentTime := [], 0, 0, 0.0;
      srtt, rttvar, rto, notify, received, timer, samples := 0.0, 0.0, MIN_RTO, [], [], Never, [];
      log := NewHistory(first);
      new;
      NewHost(first, window);
    }

    /** Takes blocks off the sent queue up to the one acknowledged. */
    method TakeAcked(rseq: nat)
      requires rseq > receiveSeq
      modifies this`sent, this`needAckBytes, this`sendSeq, this`lastReceiveSentTime, this`lastAckBytes
      ensures Model() == SerialHost.TakeAcked(old(Model()), rseq)
    {
      hide Bytes;
      BytesNone();
      ghost var all, need := sent, needAckBytes;
      var sentSeq := receiveSeq;
      while true
        invariant receiveSeq <= sentSeq < rseq && sentSeq - receiveSeq <= |all| && sent == all[sentSeq - receiveSeq..]
        invariant needAckBytes == need - Bytes(all[..sentSeq - receiveSeq])
        invariant Model().(sent := all, needAckBytes := need) == old(Model())
        decreases |sent|
      {
        if sent == [] {
          assert all[..sentSeq - receiveSeq] == all;
          sendSeq, lastReceiveSentTime := rseq, 0.0;
          return;
        }
        var head := sent[0];
        BytesSnoc(all, sentSeq - receiveSeq);
        needAckBytes := needAckBytes - head.len;
        sent := sent[1..];
        sentSeq := sentSeq + 1;
        if rseq == sentSeq {
          lastReceiveSentTime, lastAckBytes := head.receiveTime, head.len;
          return;
        }
      }
    }

    /** Updates the estimate of the round-trip time. */
    method UpdateRtt(eventtime: real)
      requires receiveSeq > 0
      modifies this`rttvar, this`srtt, this`rto, this`rttSampleSeq, this`samples
      ensures Model() == Sample(old(Model()), old(receiveSeq), eventtime)
    {
      if rttSampleSeq != 0 && receiveSeq > rttSampleSeq && lastReceiveSentTime != 0.0 {
        var delta := eventtime - lastReceiveSentTime;
        if srtt == 0.0 {
          rttvar := delta / 2.0;
          srtt := delta * 10.0;
        } else {
          rttvar := (3.0 * rttvar + Abs(srtt - delta)) / 4.0;
          srtt := (7.0 * srtt + delta) / 8.0;
        }
        var var4 := rttvar * 4.0;
        if var4 < 0.001 { var4 := 0.001; }
        rto := Clamp(srtt + var4);
        rttSampleSeq := 0;
        samples := samples + [RoundTrip(receiveSeq - 1, delta)];
      }
    }

    /** Blocks up to rseq are acknowledged: they leave the sent queue, and the log has it whether rseq was
        beyond the last retransmission. */
    method UpdateReceiveSeq(eventtime: real, rseq: nat)
      requires rseq > receiveSeq
      modifies this
      ensures Model() == SerialHost.UpdateReceiveSeq(old(Model()), eventtime, rseq)
      ensures log == LogAdvance(old(log), old(Model()), rseq)
      ensures old(Valid()) && rseq <= old(sendSeq) ==>
        && Valid() && receiveSeq == rseq && sendSeq == old(sendSeq)
        && rseq - old(receiveSeq) <= |old(sent)| && sent == old(sent)[rseq - old(receiveSeq)..]
    {
      hide Sample, SerialHost.TakeAcked, SerialHost.UpdateReceiveSeq, HostInv;
      ghost var h := Model();
      if Valid() && rseq <= sendSeq {
        AdvanceHost(h, log, eventtime, rseq);
        EnoughSent(h, log, rseq);
        UpdateFields(h, eventtime, rseq);
      }
      log := LogAdvance(log, h, rseq);
      Acknowledge(eventtime, rseq);
    }

    method Acknowledge(eventtime: real, rseq: nat)
      requires rseq > receiveSeq
      modifies this`sent, this`needAckBytes, this`sendSeq, this`lastReceiveSentTime, this`lastAckBytes, this`receiveSeq
      modifies this`rttvar, this`srtt, this`rto, this`rttSampleSeq, this`samples, this`timer
      ensures Model() == SerialHost.UpdateReceiveSeq(old(Model()), eventtime, rseq)
    {
      hide Sample, SerialHost.TakeAcked;
      TakeAcked(rseq);
      receiveSeq := rseq;
      UpdateRtt(eventtime);
      timer := if sent == [] then Never else Armed;
    }

    /** Hands over the notices that are due. */
    method ReleaseNotices(wakeSeq: int)
      modifies this`notify, this`received
      ensures Model() == SerialHost.ReleaseNotices(old(Model()), wakeSeq)
    {
      ghost var all, k := notify, 0;
      while notify != [] && notify[0] <= wakeSeq
        invariant 0 <= k <= |all| && notify == all[k..] && k + Ripe(notify, wakeSeq) == Ripe(all, wakeSeq)
        invariant received == old(received) + Notices(all[..k], lastReceiveSentTime, receiveSeq)
        decreases |notify|
      {
        received := received + [Notice(notify[0], lastReceiveSentTime, receiveSeq)];
        notify := notify[1..];
        k := k + 1;
      }
    }

    method Take(rseq: nat, m: Message)
      modifies this`received, this`lastAckSeq, this`timer
      ensures Model() == TakeMessage(old(Model()), rseq, m)
    {
      if m.data {
        var sentTime := if rseq > retransmitSeq then lastReceiveSentTime else 0.0;
        received := received + [Data(m.payload, sentTime, rseq, m.done)];
      } else if lastAckSeq < rseq {
        lastAckSeq := rseq;
      } else if rseq > ignoreNakSeq && sent != [] {
        timer := Now;
      }
    }

    method Process(eventtime: real, m: Message) returns (ok: bool)
      requires 0 <= m.nibble < 16
      modifies this
      ensures ok == !Refused(old(Model()), m)
      ensures Model() == SerialHost.HandleMessage(old(Model()), eventtime, m)
      ensures log == LogHandle(old(log), old(Model()), m)
    {
      hide SerialHost.UpdateReceiveSeq, SerialHost.ReleaseNotices, HostInv, TakeMessage;
      var rseq := receiveSeq - receiveSeq % 16 + m.nibble;
      assert log.advances + [] == log.advances;
      if rseq != receiveSeq {
        if rseq < receiveSeq { rseq := rseq + 16; }
        if rseq > sendSeq && receiveSeq != 1 { return false; }
        KeepsRetransmit(Model(), eventtime, rseq);
        UpdateReceiveSeq(eventtime, rseq);
      }
      ReleaseNotices(rseq - 1 - if m.data then 1 else 0);
      log := LogTake(log, retransmitSeq, rseq, m);
      Take(rseq, m);
      return true;
    }

    /**
     Takes any message.  It is thrown away, with no effect, exactly when its number is beyond
     the last block sent; otherwise the blocks before its number are acknowledged and what was
     handed over before stays so.  A response is handed over with the sent time of the last
     block acknowledged, if that is beyond the last retransmission, and else without one.
     */
    method HandleMessage(eventtime: real, m: Message) returns (ok: bool)
      requires 0 <= m.nibble < 16
      modifies this
      ensures Model() == SerialHost.HandleMessage(old(Model()), eventtime, m)
      ensures log == LogHandle(old(log), old(Model()), m)
      ensures old(Valid()) ==> Valid() && (ok <==> Rebuild(old(receiveSeq), m.nibble) <= old(sendSeq))
      ensures !ok ==> Model() == old(Model()) && log == old(log)
      ensures old(Valid()) && ok ==>
        && receiveSeq == Rebuild(old(receiveSeq), m.nibble) && old(receiveSeq) <= receiveSeq && sendSeq == old(sendSeq)
        && receiveSeq - old(receiveSeq) <= |old(sent)| && sent == old(sent)[receiveSeq - old(receiveSeq)..]
        && old(received) <= received
      ensures old(Valid()) && ok && m.data ==>
        var beyond := receiveSeq > old(retransmitSeq) && receiveSeq > log.first;
        && receiveSeq <= log.first + |log.times| && |received| > |old(received)|
        && received[|received|-1] == Data(m.payload, if beyond then log.times[receiveSeq - log.first - 1] else 0.0,
                                          receiveSeq, m.done)
    {
      hide SerialHost.HandleMessage, HostInv, Refused, LogHandle;
      ghost var h, l := Model(), log;
      if Valid() {
        HandleHost(h, log, eventtime, m);
        RefusedBeyond(h, log, m);
      }
      if Refused(h, m) {
        RefusedSame(h, eventtime, m);
        RefusedLog(h, log, m);
      } else if Valid() {
        HandledFields(h, log, eventtime, m);
        if m.data { HandledData(h, log, eventtime, m); }
      }
      ok := Process(eventtime, m);
    }

    method Rewrite() returns (frames: seq<Frame>)
      modifies this`ignoreNakSeq, this`rto, this`retransmitSeq, this`rttSampleSeq, this`timer
      ensures Model() == Retransmit(old(Model())) && frames == Frames(old(sent))
    {
      frames := [];
      for i := 0 to |sent|
        invariant frames == Frames(sent)[..i] && Model() == old(Model())
      {
        frames := frames + [sent[i].frame];
      }
      if timer == Now {
        ignoreNakSeq := receiveSeq;
        if receiveSeq < retransmitSeq { ignoreNakSeq := retransmitSeq; }
      } else {
        rto := rto * 2.0;
        if rto > MAX_RTO { rto := MAX_RTO; }
        ignoreNakSeq := sendSeq;
      }
      retransmitSeq, rttSampleSeq, timer := sendSeq, 0, Armed;
    }

    /** Writes all pending blocks again: the frames of exactly the blocks not acknowledged, in order. */
    method RetransmitEvent() returns (frames: seq<Frame>)
      modifies this
      ensures Model() == Retransmit(old(Model())) && frames == Frames(old(sent))
      ensures old(Valid()) ==> Valid() && log.first <= receiveSeq && log == LogRetransmit(old(log), old(Model()))
      ensures old(Valid()) ==> |frames| == sendSeq - receiveSeq
      ensures old(Valid()) ==> forall i :: 0 <= i < |frames| ==> Holds(log.first, log.built, receiveSeq + i, frames[i])
    {
      hide HostInv, Retransmit, Holds;
      if Valid() {
        RetransmitHost(Model(), log);
        PendingFrames(Model(), log);
        log := LogRetransmit(log, Model());
      }
      frames := Rewrite();
    }

    method AskNotices(notices: nat)
      modifies this`notify
      ensures notify == old(notify) + Repeat(sendSeq, notices)
    {
      for i := 0 to notices
        invariant notify == old(notify) + Repeat(sendSeq, i)
      {
        notify := notify + [sendSeq];
      }
    }

    method Add(f: Frame, len: nat, notices: nat, receiveTime: real)
      requires f == NextFrame(Model(), f.payload)
      modifies this`notify, this`timer, this`rttSampleSeq, this`sendSeq, this`needAckBytes, this`sent
      ensures Model() == Build(old(Model()), f.payload, len, notices, receiveTime)
    {
      AskNotices(notices);
      if sent == [] { timer := Armed; }
      if rttSampleSeq == 0 { rttSampleSeq := sendSeq; }
      sendSeq, needAckBytes, sent := sendSeq + 1, needAckBytes + len, sent + [Sent(f, len, receiveTime)];
    }

    /** Whether a block may be sent: few enough are pending, and a full one fits the receive buffer beside them. */
    method CheckSend() returns (ok: bool)
      ensures ok <==> MaySend(Model())
    {
      if sendSeq - receiveSeq >= MAX_PENDING_BLOCKS { return false; }
      if sendSeq > receiveSeq && window != 0 {
        var need := needAckBytes + MESSAGE_MAX;
        if lastAckSeq < receiveSeq { need := need + lastAckBytes; }
        if need > window { return false; }
      }
      return true;
    }

    /** Builds a block, unless twelve are pending or a full one might not fit the receive buffer beside them: it
        has the next number and waits for its ack behind the others, and its notices are asked for. */
    method BuildBlock(payload: Payload, len: nat, notices: nat, receiveTime: real) returns (ok: bool, f: Frame)
      modifies this
      ensures ok <==> MaySend(old(Model()))
      ensures ok ==> Model() == Build(old(Model()), payload, len, notices, receiveTime)
      ensures ok ==> log == LogBuild(old(log), old(Model()), payload, len, notices, receiveTime)
      ensures !ok ==> Model() == old(Model()) && log == old(log)
      ensures old(Valid()) && len <= MESSAGE_MAX ==> Valid()
      ensures old(Valid()) && ok ==> Holds(log.first, log.built, old(sendSeq), f) && sendSeq == old(sendSeq) + 1
    {
      hide HostInv;
      f := Frame(sendSeq, sendSeq % 16, payload);
      ok := CheckSend();
      if !ok { return; }
      ghost var h := Model();
      if Valid() && len <= MESSAGE_MAX {
        BuildHost(h, log, payload, len, notices, receiveTime);
      }
      if Valid() { BuiltLast(h, log, payload, len, notices, receiveTime); }
      log := LogBuild(log, h, payload, len, notices, receiveTime);
      Add(f, len, notices, receiveTime);
      return true, f;
    }
  }

  lemma KeepsRetransmit(h: Host, eventtime: real, rseq: nat)
    requires rseq > h.receiveSeq
    ensures SerialHost.UpdateReceiveSeq(h, eventtime, rseq).retransmitSeq == h.retransmitSeq
  {
    hide Bytes;
  }

  lemma NewHost(first: nat, window: nat)
    requires first >= 2
    ensures HostInv(Host(window, first, first, 0, 0, 0, 0, [], 0, 0, 0.0, 0.0, 0.0, MIN_RTO, [], [], Never, []),
                    NewHistory(first))
  {
  }

  lemma BuiltLast(h: Host, log: History, payload: Payload, len: nat, notices: nat, receiveTime: real)
    requires HostInv(h, log)
    ensures var l := LogBuild(log, h, payload, len, notices, receiveTime);
            Holds(l.first, l.built, h.sendSeq, NextFrame(h, payload))
  {
    hide SentQueue, SentTimes, Karn, Estimated, Advances, NoticeTimes, Recorded, Asked, AcksKnown, NaksLimited;
  }

  lemma PendingFrames(h: Host, log: History)
    requires HostInv(h, log)
    ensures log.first <= h.receiveSeq && |h.sent| == h.sendSeq - h.receiveSeq
    ensures forall i :: 0 <= i < |h.sent| ==> Holds(log.first, log.built, h.receiveSeq + i, h.sent[i].frame)
    ensures var l := LogRetransmit(log, h); l.first == log.first && l.built == log.built
    ensures var t := Retransmit(h); t.receiveSeq == h.receiveSeq && t.sendSeq == h.sendSeq
  {
    hide SentTimes, Karn, Estimated, Advances, NoticeTimes, Recorded, Asked, AcksKnown, NaksLimited;
  }

  lemma RefusedLog(h: Host, log: History, m: Message)
    requires 0 <= m.nibble < 16 && Refused(h, m)
    ensures LogHandle(log, h, m) == log
  {
  }

  /** The acknowledged blocks are gone, and something may have been handed over. */
  lemma HandledFields(h: Host, log: History, eventtime: real, m: Message)
    requires HostInv(h, log) && 0 <= m.nibble < 16 && !Refused(h, m)
    ensures var t := SerialHost.HandleMessage(h, eventtime, m); var rseq := Rebuild(h.receiveSeq, m.nibble);
            && h.receiveSeq <= rseq == t.receiveSeq && t.sendSeq == h.sendSeq && rseq - h.receiveSeq <= |h.sent|
            && t.sent == h.sent[rseq - h.receiveSeq..] && h.received <= t.received
  {
    hide HostInv, SerialHost.UpdateReceiveSeq, Ripe, SerialHost.HandleMessage, Rebuild, Refused;
    var rseq := Rebuild(h.receiveSeq, m.nibble);
    RefusedBeyond(h, log, m);
    HandleParts(h, eventtime, m);
    EnoughSent(h, log, rseq);
    if rseq > h.receiveSeq { UpdateFields(h, eventtime, rseq); }
  }

  /** What is handed over last is the response, with its sent time. */
  lemma HandledData(h: Host, log: History, eventtime: real, m: Message)
    requires HostInv(h, log) && 0 <= m.nibble < 16 && !Refused(h, m) && m.data
    ensures var t, l := SerialHost.HandleMessage(h, eventtime, m), LogHandle(log, h, m);
            var beyond := t.receiveSeq > h.retransmitSeq && t.receiveSeq > l.first;
            && l.first <= t.receiveSeq <= l.first + |l.times| && |t.received| > |h.received|
            && t.received[|t.received|-1] ==
                 Data(m.payload, if beyond then l.times[t.receiveSeq - l.first - 1] else 0.0, t.receiveSeq, m.done)
  {
    hide HostInv, SerialHost.UpdateReceiveSeq, Ripe, SerialHost.HandleMessage, Rebuild, Refused, LogHandle;
    var rseq := Rebuild(h.receiveSeq, m.nibble);
    HandleHost(h, log, eventtime, m);
    LastTime(SerialHost.HandleMessage(h, eventtime, m), LogHandle(log, h, m));
    RefusedBeyond(h, log, m);
    HandleParts(h, eventtime, m);
    EnoughSent(h, log, rseq);
    if rseq > h.receiveSeq { UpdateFields(h, eventtime, rseq); }
  }

  lemma BytesNone()
    ensures Bytes([]) == 0
  {
  }

  lemma {:induction false} BytesSnoc(all: seq<Sent>, k: nat)
    requires k < |all|
    ensures Bytes(all[..k + 1]) == Bytes(all[..k]) + all[k].len
  {
    if k == 0 {
      assert all[..1][1..] == [];
    } else {
      assert all[..k + 1][1..] == all[1..][..k] && all[..k][1..] == all[1..][..k - 1];
      BytesSnoc(all[1..], k - 1);
    }
  }
}
