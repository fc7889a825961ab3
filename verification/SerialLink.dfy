/** Host, micro-controller and the two links between them, one step at a time. */
module SerialLink {
  import opened SerialHost
  import opened SerialLog

  /** `log` is the past of the host; `heard` is the `done` of the last message delivered and `responses` are the
      payloads of all responses sent. */
  datatype System = System(
    host: Host, mcu: Mcu, toMcu: seq<Frame>, toHost: seq<Message>, log: History, heard: nat, responses: seq<Payload>)

  datatype Event =
    | BuildBlock(payload: Payload, len: nat, notices: nat, receiveTime: real)
    | RetransmitAll
    | LoseFrame(at: nat)
    | LoseMessage(at: nat)
    | Deliver(eventtime: real)
    | FindBlock
    | SpuriousNak
    | Respond(payload: Payload)
    | Finish

  function Start(first: nat, window: nat): System {
    System(
      Host(window, first, first, 0, 0, 0, 0, [], 0, 0, 0.0, 0.0, 0.0, MIN_RTO, [], [], Never, []),
      Mcu(first % 16, false, first, []), [], [], NewHistory(first), first, [])
  }

  function Without<T>(s: seq<T>, at: nat): seq<T>
    requires at < |s|
  {
    s[..at] + s[at + 1..]
  }

  function BuildStep(s: System, e: Event): System
    requires e.BuildBlock?
  {
    s.(host := Build(s.host, e.payload, e.len, e.notices, e.receiveTime),
       toMcu := s.toMcu + [NextFrame(s.host, e.payload)],
       log := LogBuild(s.log, s.host, e.payload, e.len, e.notices, e.receiveTime))
  }

  function RetransmitStep(s: System): System
    requires s.log.first <= s.host.receiveSeq
  {
    s.(host := Retransmit(s.host), toMcu := s.toMcu + Frames(s.host.sent), log := LogRetransmit(s.log, s.host))
  }

  function DeliverStep(s: System, eventtime: real): System
    requires s.toHost != [] && 0 <= s.toHost[0].nibble < 16
  {
    s.(host := HandleMessage(s.host, eventtime, s.toHost[0]), toHost := s.toHost[1..], heard := s.toHost[0].done,
       log := LogHandle(s.log, s.host, s.toHost[0]))
  }

  /** The next block is dispatched, or answered with a nak. */
  function FindStep(s: System): System
    requires s.toMcu != [] && s.mcu.next > 0
  {
    var rest := s.toMcu[1..];
    if Accepts(s.mcu, s.toMcu[0]) then s.(mcu := Dispatch(s.mcu, s.toMcu[0]), toMcu := rest)
    else s.(toHost := s.toHost + [AckNak(s.mcu)], toMcu := rest)
  }

  /** A block is finished: its handlers have run, and the ack is sent. */
  function FinishStep(s: System): System
    requires s.mcu.next > 0
  {
    var m := s.mcu.(busy := false);
    s.(mcu := m, toHost := s.toHost + [AckNak(m)])
  }

  /** What an event needs to happen; another event changes nothing. */
  predicate Enabled(s: System, e: Event) {
    match e
    case BuildBlock(_, len, _, _) => MaySend(s.host) && len <= MESSAGE_MAX
    case RetransmitAll => s.host.timer != Never && s.log.first <= s.host.receiveSeq
    case LoseFrame(at) => at < |s.toMcu|
    case LoseMessage(at) => at < |s.toHost|
    case Deliver(_) => s.toHost != [] && 0 <= s.toHost[0].nibble < 16
    case FindBlock => !s.mcu.busy && s.toMcu != [] && s.mcu.next > 0
    case SpuriousNak => !s.mcu.busy && s.mcu.next > 0
    case Respond(_) => s.mcu.next > 0
    case Finish => s.mcu.busy && s.mcu.next > 0
  }

  function Step(s: System, e: Event): System {
    if !Enabled(s, e) then s
    else
      match e
      case BuildBlock(_, _, _, _) => BuildStep(s, e)
      case RetransmitAll => RetransmitStep(s)
      case LoseFrame(at) => s.(toMcu := Without(s.toMcu, at))
      case LoseMessage(at) => s.(toHost := Without(s.toHost, at))
      case Deliver(eventtime) => DeliverStep(s, eventtime)
      case FindBlock => FindStep(s)
      case SpuriousNak => s.(toHost := s.toHost + [AckNak(s.mcu)])
      case Respond(payload) => s.(toHost := s.toHost + [Response(s.mcu, payload)], responses := s.responses + [payload])
      case Finish => FinishStep(s)
  }

  function Run(first: nat, window: nat, es: seq<Event>): System {
    if es == [] then Start(first, window) else Step(Run(first, window, es[..|es|-1]), es[|es|-1])
  }

  // ----- what every run keeps -----

  /** The blocks dispatched are the first of those built. */
  ghost predicate Dispatched(m: Mcu, first: nat, built: seq<Payload>) {
    && m.nibble == m.next % 16 && (m.busy ==> m.next > first)
    && 0 <= m.next - first <= |built| && m.dispatched == built[..m.next - first]
  }

  ghost predicate GoodFrame(f: Frame, next: nat, first: nat, built: seq<Payload>) {
    next - MAX_PENDING_BLOCKS <= f.id && Holds(first, built, f.id, f)
  }

  ghost predicate NotMuchOlder(toMcu: seq<Frame>) {
    forall i, j :: 0 <= i < j < |toMcu| ==> toMcu[i].id - MAX_PENDING_BLOCKS < toMcu[j].id
  }

  /** No block on the link is so old that its four bits could be taken for the block awaited. */
  ghost predicate Wire(toMcu: seq<Frame>, next: nat, first: nat, built: seq<Payload>) {
    NotMuchOlder(toMcu) && forall i :: 0 <= i < |toMcu| ==> GoodFrame(toMcu[i], next, first, built)
  }

  ghost predicate GoodMessage(m: Message, receiveSeq: nat, next: nat, heard: nat, finished: int) {
    && m.nibble == m.next % 16 && receiveSeq <= m.next <= next && heard <= m.done <= finished
    && (if m.data then m.next - 1 <= m.done else m.done == m.next)
  }

  ghost predicate InOrder(toHost: seq<Message>) {
    forall i, j :: 0 <= i < j < |toHost| ==> toHost[i].next <= toHost[j].next && toHost[i].done <= toHost[j].done
  }

  ghost predicate Replies(toHost: seq<Message>, receiveSeq: nat, next: nat, heard: nat, finished: int) {
    && heard <= finished && InOrder(toHost)
    && forall i :: 0 <= i < |toHost| ==> GoodMessage(toHost[i], receiveSeq, next, heard, finished)
  }

  /** A notice comes when its block is finished, and after all responses of that block. */
  ghost predicate NoticesInOrder(received: seq<Entry>, heard: nat) {
    && (forall i :: 0 <= i < |received| && received[i].Notice? ==> received[i].block < heard)
    && (forall i, j :: 0 <= i < j < |received| && received[i].Notice? && received[j].Data? ==>
         received[i].block < received[j].done)
  }

  /** The payloads of the responses handed to the receiving thread. */
  function Handed(received: seq<Entry>): seq<Payload> {
    if received == [] then []
    else
      var last := received[|received|-1];
      Handed(received[..|received|-1]) + if last.Data? then [last.payload] else []
  }

  /** The payloads of the responses on their way. */
  function OnTheWay(toHost: seq<Message>): seq<Payload> {
    if toHost == [] then []
    else
      var last := toHost[|toHost|-1];
      OnTheWay(toHost[..|toHost|-1]) + if last.data then [last.payload] else []
  }

  /** In the same order, perhaps with some left out. */
  ghost predicate Subsequence(a: seq<Payload>, b: seq<Payload>)
    decreases |b|
  {
    a == [] || (b != [] && (Subsequence(a, b[..|b|-1])
                          || (a[|a|-1] == b[|b|-1] && Subsequence(a[..|a|-1], b[..|b|-1]))))
  }

  ghost predicate Relayed(received: seq<Entry>, toHost: seq<Message>, responses: seq<Payload>) {
    Subsequence(Handed(received) + OnTheWay(toHost), responses)
  }

  ghost predicate Inv(s: System) {
    && HostInv(s.host, s.log)
    && s.host.receiveSeq <= s.mcu.next <= s.host.sendSeq
    && Dispatched(s.mcu, s.log.first, s.log.built)
    && Wire(s.toMcu, s.mcu.next, s.log.first, s.log.built)
    && Replies(s.toHost, s.host.receiveSeq, s.mcu.next, s.heard, Finished(s.mcu))
    && NoticesInOrder(s.host.received, s.heard)
    && Relayed(s.host.received, s.toHost, s.responses)
  }
}
