/**
 The two ends of the serial link as values: what each does with one event.

 A block carries four bits of its sequence number.  The full number `id` of a block, and the
 fields `next` and `done` of a message, are history: no decision below looks at them.
 */
module SerialHost {
  type Payload = seq<int>

  const MIN_RTO := 0.025
  const MAX_RTO := 5.0
  const MAX_PENDING_BLOCKS := 12
  const MESSAGE_MAX := 64

  /** A block on its way to the micro-controller. */
  datatype Frame = Frame(id: nat, nibble: int, payload: Payload)

  /**
   A message from the micro-controller: an ack, or data.  When it was encoded the next block
   awaited was `next` and all blocks before `done` were finished.
   */
  datatype Message = Message(nibble: int, data: bool, payload: Payload, next: nat, done: nat)

  /** A block waiting for its ack. */
  datatype Sent = Sent(frame: Frame, len: nat, receiveTime: real)

  /** What the receiving thread is handed: data, or the notice that a block is finished; `ack` is the number
      that was acknowledged when it was handed over. */
  datatype Entry =
    | Data(payload: Payload, sentTime: real, ack: nat, done: nat)
    | Notice(block: nat, sentTime: real, ack: nat)

  /** A round trip: from the time at which a block was sent to that of its ack. */
  datatype RoundTrip = RoundTrip(block: nat, delta: real)

  datatype Timer = Never | Now | Armed

  /** `window` is the size of the buffer that the micro-controller receives into, or 0 if it has none to fill. */
  datatype Host = Host(
    window: nat, sendSeq: nat, receiveSeq: nat, ignoreNakSeq: nat, lastAckSeq: nat, retransmitSeq: nat,
    rttSampleSeq: nat, sent: seq<Sent>, needAckBytes: int, lastAckBytes: nat, lastReceiveSentTime: real,
    srtt: real, rttvar: real, rto: real,
    notify: seq<nat>, received: seq<Entry>, timer: Timer,
    samples: seq<RoundTrip>)     // history: the round trips that the estimate was made from

  function Bytes(sent: seq<Sent>): nat {
    if sent == [] then 0 else sent[0].len + Bytes(sent[1..])
  }

  function Abs(x: real): real { if x < 0.0 then -x else x }

  function Clamp(rto: real): real {
    if rto < MIN_RTO then MIN_RTO else if rto > MAX_RTO then MAX_RTO else rto
  }

  // ----- host: a message arrives -----

  /** The sequence number nearest above the last one that ends in the four bits received. */
  function Rebuild(receiveSeq: nat, nibble: int): int {
    var rseq := receiveSeq - receiveSeq % 16 + nibble;
    if rseq < receiveSeq then rseq + 16 else rseq
  }

  /** Takes the acknowledged blocks off the sent queue; running out of them restarts the numbering. */
  function TakeAcked(h: Host, rseq: nat): Host
    requires rseq > h.receiveSeq
  {
    var n := rseq - h.receiveSeq;
    if n <= |h.sent| then
      h.(sent := h.sent[n..], needAckBytes := h.needAckBytes - Bytes(h.sent[..n]),
         lastReceiveSentTime := h.sent[n-1].receiveTime, lastAckBytes := h.sent[n-1].len)
    else
      h.(sent := [], needAckBytes := h.needAckBytes - Bytes(h.sent), sendSeq := rseq, lastReceiveSentTime := 0.0)
  }

  predicate TakesSample(h: Host, rseq: nat) {
    h.rttSampleSeq != 0 && rseq > h.rttSampleSeq && h.lastReceiveSentTime != 0.0
  }

  /** The smoothed round-trip time after one more round trip; the first counts tenfold. */
  function NextMean(srtt: real, delta: real): real {
    if srtt == 0.0 then delta * 10.0 else (7.0 * srtt + delta) / 8.0
  }

  function NextDeviation(srtt: real, rttvar: real, delta: real): real {
    if srtt == 0.0 then delta / 2.0 else (3.0 * rttvar + Abs(srtt - delta)) / 4.0
  }

  function Margin(rttvar: real): real {
    if rttvar * 4.0 < 0.001 then 0.001 else rttvar * 4.0
  }

  /** The estimate of the round-trip time after the ack of block rseq-1. */
  function Sample(h: Host, rseq: nat, eventtime: real): Host
    requires rseq > 0
  {
    if TakesSample(h, rseq) then
      var delta := eventtime - h.lastReceiveSentTime;
      var rttvar := NextDeviation(h.srtt, h.rttvar, delta);
      var srtt := NextMean(h.srtt, delta);
      h.(rttvar := rttvar, srtt := srtt, rto := Clamp(srtt + Margin(rttvar)), rttSampleSeq := 0,
         samples := h.samples + [RoundTrip(rseq - 1, delta)])
    else h
  }

  function UpdateReceiveSeq(h: Host, eventtime: real, rseq: nat): Host
    requires rseq > h.receiveSeq
  {
    var t := Sample(TakeAcked(h, rseq).(receiveSeq := rseq), rseq, eventtime);
    t.(timer := if t.sent == [] then Never else Armed)
  }

  /** Length of the run of notices, from the front, for blocks up to wakeSeq. */
  function Ripe(notify: seq<nat>, wakeSeq: int): (n: nat)
    ensures n <= |notify|
  {
    if notify == [] || notify[0] > wakeSeq then 0 else 1 + Ripe(notify[1..], wakeSeq)
  }

  function Notices(seqs: seq<nat>, sentTime: real, ack: nat): (r: seq<Entry>)
    ensures |r| == |seqs| && forall i :: 0 <= i < |r| ==> r[i] == Notice(seqs[i], sentTime, ack)
  {
    seq(|seqs|, i requires 0 <= i < |seqs| => Notice(seqs[i], sentTime, ack))
  }

  function ReleaseNotices(h: Host, wakeSeq: int): Host {
    var n := Ripe(h.notify, wakeSeq);
    h.(notify := h.notify[n..],
       received := h.received + Notices(h.notify[..n], h.lastReceiveSentTime, h.receiveSeq))
  }

  function TakeMessage(h: Host, rseq: nat, m: Message): Host {
    if m.data then
      var sentTime := if rseq > h.retransmitSeq then h.lastReceiveSentTime else 0.0;
      h.(received := h.received + [Data(m.payload, sentTime, rseq, m.done)])
    else if h.lastAckSeq < rseq then h.(lastAckSeq := rseq)
    else if rseq > h.ignoreNakSeq && h.sent != [] then h.(timer := Now)
    else h
  }

  /** An ack for a block that was never sent is thrown away. */
  predicate Refused(h: Host, m: Message) {
    var rseq := Rebuild(h.receiveSeq, m.nibble);
    rseq != h.receiveSeq && rseq > h.sendSeq && h.receiveSeq != 1
  }

  function HandleMessage(h: Host, eventtime: real, m: Message): Host
    requires 0 <= m.nibble < 16
  {
    if Refused(h, m) then h
    else
      var rseq := Rebuild(h.receiveSeq, m.nibble);
      var t := if rseq != h.receiveSeq then UpdateReceiveSeq(h, eventtime, rseq) else h;
      TakeMessage(ReleaseNotices(t, rseq - 1 - (if m.data then 1 else 0)), rseq, m)
  }

  // ----- host: sending -----

  function Repeat(x: nat, n: nat): (r: seq<nat>)
    ensures |r| == n && forall i :: 0 <= i < n ==> r[i] == x
  {
    seq(n, i => x)
  }

  /** Bytes that may still be in the receive buffer although they are acknowledged: those of the last block,
      until its own ack has come. */
  function Behind(h: Host): nat {
    if h.lastAckSeq < h.receiveSeq then h.lastAckBytes else 0
  }

  /** Few enough blocks are pending, and a full one still fits the receive buffer beside those pending. */
  predicate MaySend(h: Host) {
    && h.sendSeq - h.receiveSeq < MAX_PENDING_BLOCKS
    && (h.sendSeq > h.receiveSeq && h.window != 0 ==> h.needAckBytes + MESSAGE_MAX + Behind(h) <= h.window)
  }

  function NextFrame(h: Host, payload: Payload): Frame {
    Frame(h.sendSeq, h.sendSeq % 16, payload)
  }

  /** Builds the next block; `notices` of its commands want a notice. */
  function Build(h: Host, payload: Payload, len: nat, notices: nat, receiveTime: real): Host {
    h.(sendSeq := h.sendSeq + 1, needAckBytes := h.needAckBytes + len,
       rttSampleSeq := if h.rttSampleSeq == 0 then h.sendSeq else h.rttSampleSeq,
       sent := h.sent + [Sent(NextFrame(h, payload), len, receiveTime)],
       timer := if h.sent == [] then Armed else h.timer,
       notify := h.notify + Repeat(h.sendSeq, notices))
  }

  function Frames(sent: seq<Sent>): (r: seq<Frame>)
    ensures |r| == |sent| && forall i :: 0 <= i < |r| ==> r[i] == sent[i].frame
  {
    seq(|sent|, i requires 0 <= i < |sent| => sent[i].frame)
  }

  /** After all pending blocks were written again. */
  function Retransmit(h: Host): Host {
    var t :=
      if h.timer == Now then
        h.(ignoreNakSeq := if h.receiveSeq < h.retransmitSeq then h.retransmitSeq else h.receiveSeq)
      else
        h.(rto := if h.rto * 2.0 > MAX_RTO then MAX_RTO else h.rto * 2.0, ignoreNakSeq := h.sendSeq);
    t.(retransmitSeq := h.sendSeq, rttSampleSeq := 0, timer := Armed)
  }

  // ----- micro-controller -----

  /** The next block awaited, known by its four bits; `next` and `dispatched` are history. */
  datatype Mcu = Mcu(nibble: int, busy: bool, next: nat, dispatched: seq<Payload>)

  /** Every block before this one is finished. */
  function Finished(m: Mcu): int {
    if m.busy then m.next - 1 else m.next
  }

  predicate Accepts(m: Mcu, f: Frame) {
    f.nibble == m.nibble
  }

  function Dispatch(m: Mcu, f: Frame): Mcu {
    m.(nibble := (f.nibble + 1) % 16, busy := true, next := m.next + 1, dispatched := m.dispatched + [f.payload])
  }

  /** An ack or a nak: they are the same message. */
  function AckNak(m: Mcu): Message
    requires m.next > 0
  {
    Message(m.nibble, false, [], m.next, Finished(m))
  }

  function Response(m: Mcu, payload: Payload): Message
    requires m.next > 0
  {
    Message(m.nibble, true, payload, m.next, Finished(m))
  }
}
