/**
 From the command queues of the host to the handlers of the micro-controller.

 The sender fills blocks from its command queues; the link carries the blocks, loses some
 and repeats them.  Together: the commands of every queue are dispatched in the order they
 were handed in, each once, with none left out.
 */
module SenderLink {
  import opened SerialHost
  import opened SerialLog
  import opened SerialLink
  import opened SerialTheorems
  import L = SendLists
  import S = SendQueue
  import Q = SerialQueue

  /** The payload of a block: its commands, one after the other. */
  function PayloadOf(msgs: seq<L.Msg>): Payload {
    seq(|msgs|, i requires 0 <= i < |msgs| => msgs[i].id)
  }

  ghost function Payloads(blocks: seq<L.Block>): (r: seq<Payload>)
    ensures |r| == |blocks| && forall i :: 0 <= i < |r| ==> r[i] == PayloadOf(blocks[i].msgs)
  {
    seq(|blocks|, i requires 0 <= i < |blocks| => PayloadOf(blocks[i].msgs))
  }

  lemma PayloadsMore(blocks: seq<L.Block>, b: L.Block)
    ensures Payloads(blocks + [b]) == Payloads(blocks) + [PayloadOf(b.msgs)]
  {
  }

  lemma SentOfQueue(sender: S.Sender, q: nat)
    requires sender.Valid() && q < |sender.queues|
    ensures q < |sender.submitted| && L.TakenBy(sender.blocks, q) <= sender.submitted[q]
  {
    hide L.Counted, L.Listed, L.Due, L.AllInTurn, L.TakenBy;
    var c := sender.queues[q];
    assert sender.submitted[q] == sender.sent[q] + c.ready + c.upcoming;
  }

  /**
   Over every run of the link that carries the blocks of the sender, with any losses: what the
   micro-controller has dispatched are the first of these blocks, and the commands in them that
   came from one queue are the first of those handed in to that queue, in order.
   */
  lemma CommandsDispatchedInOrder(sender: S.Sender, q: nat, first: nat, window: nat, es: seq<Event>)
    requires sender.Valid() && q < |sender.queues| && first >= 2
    requires Run(first, window, es).log.built == Payloads(sender.blocks)
    ensures var done := Run(first, window, es).mcu.dispatched;
            && |done| <= |sender.blocks| && done == Payloads(sender.blocks[..|done|])
            && q < |sender.submitted| && L.TakenBy(sender.blocks[..|done|], q) <= sender.submitted[q]
  {
    hide Run, L.TakenBy, PayloadOf;
    DispatchesInOrder(first, window, es);
    var n := |Run(first, window, es).mcu.dispatched|;
    SentOfQueue(sender, q);
    L.TakenByPrefix(sender.blocks, n, q);
  }

  lemma StepBuilt(s: System, e: Event)
    ensures Step(s, e).log.built ==
              if e.BuildBlock? && Enabled(s, e) then s.log.built + [e.payload] else s.log.built
  {
    hide HandleMessage, Retransmit, Build;
  }

  lemma RunMore(first: nat, window: nat, es: seq<Event>, e: Event)
    ensures Run(first, window, es + [e]) == Step(Run(first, window, es), e)
  {
    hide Step;
    assert (es + [e])[..|es|] == es;
  }

  lemma RunNone(first: nat, window: nat)
    ensures Run(first, window, []) == Start(first, window)
  {
  }

  /**
   The sender and the host's end of the link, with what lies beyond as history: the messages
   and blocks on their way and the micro-controller.  `Valid` says that the objects are where
   the run of the link has brought them, and that its blocks are those of the sender.
   */
  class Connection {
    const sender: S.Sender
    const queue: Q.Queue
    ghost const first: nat
    ghost var es: seq<Event>

    ghost function Link(): System
      reads this
    {
      Run(first, queue.window, es)
    }

    ghost predicate Valid()
      reads this, sender, queue
    {
      && first >= 2 && sender.Valid() && queue.Valid()
      && queue.Model() == Link().host && queue.log == Link().log
      && Link().log.built == Payloads(sender.blocks)
    }

    constructor (n: nat, first: nat, window: nat)
      requires first >= 2
      ensures Valid() && es == [] && sender.submitted == seq(n, _ => []) && queue.window == window
      ensures fresh(sender) && fresh(queue)
    {
      sender := new S.Sender(n);
      queue := new Q.Queue(first, window);
      this.first, es := first, [];
      new;
      hide Run, HostInv, L.Counted, L.Listed, L.Kept, L.Due, L.AllInTurn, L.SentInBlocks;
      RunNone(first, window);
    }

    /** Commands are handed in to a queue. */
    method Send(q: nat, msgs: seq<L.Msg>)
      requires Valid() && q < |sender.queues|
      modifies sender
      ensures Valid() && es == old(es) && sender.blocks == old(sender.blocks)
      ensures L.Bytes(msgs) > 0 ==>
        sender.submitted == old(sender.submitted)[q := old(sender.submitted)[q] + L.AllAdjusted(msgs)]
    {
      sender.SendBatch(q, msgs);
    }

    method MakeReady(ackClock: int)
      requires Valid()
      modifies sender
      ensures Valid() && es == old(es) && sender.blocks == old(sender.blocks)
    {
      sender.MakeReady(ackClock);
    }

    /** Builds a block from the ready commands and sends it, if it may be sent now.  False is a crash. */
    method Build(notices: nat, receiveTime: real) returns (ok: bool)
      requires Valid()
      modifies this, sender, queue
      ensures ok ==> Valid() && sender.submitted == old(sender.submitted)
      ensures ok && !MaySend(old(queue.Model())) ==> es == old(es) && sender.blocks == old(sender.blocks)
      ensures ok && MaySend(old(queue.Model())) ==>
        && |sender.blocks| == |old(sender.blocks)| + 1 && old(sender.blocks) <= sender.blocks
        && Link().log.built == old(Link().log.built) + [PayloadOf(sender.blocks[|old(sender.blocks)|].msgs)]
    {
      hide Run, HostInv, PayloadOf;
      var may := queue.CheckSend();
      if !may { return true; }
      var msgs, len;
      ghost var picks;
      ok, msgs, len, picks := sender.BuildBlock();
      if !ok { return; }
      var payload := PayloadOf(msgs);
      var built, f := queue.BuildBlock(payload, len, notices, receiveTime);
      ghost var e := BuildBlock(payload, len, notices, receiveTime);
      RunMore(first, queue.window, es, e);
      StepBuilt(Link(), e);
      PayloadsMore(old(sender.blocks), L.Block(picks, msgs));
      es := es + [e];
    }

    /** A message arrives from the micro-controller. */
    method Deliver(eventtime: real, m: Message) returns (ok: bool)
      requires Valid() && Link().toHost != [] && m == Link().toHost[0] && 0 <= m.nibble < 16
      modifies this, queue
      ensures Valid() && es == old(es) + [Event.Deliver(eventtime)]
    {
      hide Run, HostInv, HandleMessage;
      ghost var e := Event.Deliver(eventtime);
      RunMore(first, queue.window, es, e);
      StepBuilt(Link(), e);
      ok := queue.HandleMessage(eventtime, m);
      es := es + [e];
    }

    /** The pending blocks are written again. */
    method RetransmitPending()
      requires Valid() && queue.timer != Never
      modifies this, queue
      ensures Valid() && es == old(es) + [RetransmitAll]
    {
      hide Run, HostInv, Retransmit;
      Q.PendingFrames(queue.Model(), queue.log);
      RunMore(first, queue.window, es, RetransmitAll);
      StepBuilt(Link(), RetransmitAll);
      var frames := queue.RetransmitEvent();
      es := es + [RetransmitAll];
    }

    /** Anything happens on the links or in the micro-controller. */
    ghost method Elsewhere(e: Event)
      requires Valid() && !e.BuildBlock? && !e.RetransmitAll? && !e.Deliver?
      modifies this
      ensures Valid() && es == old(es) + [e]
    {
      hide Run, HostInv;
      RunMore(first, queue.window, es, e);
      StepBuilt(Link(), e);
      es := es + [e];
    }

    /**
     At any time the commands of one queue that the micro-controller has dispatched are the
     first of those handed in to the queue, in order and each once.
     */
    lemma DispatchedInOrder(q: nat)
      requires Valid() && q < |sender.queues|
      ensures var done := Link().mcu.dispatched;
              && |done| <= |sender.blocks| && done == Payloads(sender.blocks[..|done|])
              && q < |sender.submitted| && L.TakenBy(sender.blocks[..|done|], q) <= sender.submitted[q]
    {
      hide Run, L.TakenBy, HostInv;
      CommandsDispatchedInOrder(sender, q, first, queue.window, es);
    }
  }
}
