/**
 * What a peer answers to an offer, and that two peers with a transfer queued for
 * each other do deliver both: an undisturbed course of one transfer is a course
 * of the two-way system, which the other transfer may follow:
 * apps/desktop/src/file_transfer.rs:354-505, 751-990, 1051-1161.
 */
module BothDelivered {
  import opened Wrappers
  import opened TransferCheckpoint
  import opened ReceiveDisk
  import opened ReceiveSession
  import opened TransferProtocol
  import opened TransferLockstep
  import opened TransferBothWays
  import C = OfferCollision

  type Place = TransferProtocol.State
  type Doing = TransferBothWays.Action

  // ---------------------------------------------------------------- answering an offer

  /**
   * A listening receiver opens a session exactly for an offer that policy and
   * permit admit and that its store may open; one refused by policy or permit is
   * answered with Reject and leaves the store alone.
   */
  lemma OfferAnsweredIff(hash: Hash, m: Manifest, s: Place, offered: Manifest, policyAllows: bool, permitFree: bool)
    requires Separate(offered) && s.receiver.Listening?
    ensures var t := ReceiverReceives(hash, m, s, Offer(offered), policyAllows, permitFree);
            && (t.receiver.Receiving? <==> policyAllows && permitFree && MayOpen(offered, s.store))
            && (t.receiver.Receiving? ==>
                  t.receiver.session.manifest == offered
                  && t.toSender == s.toSender + [Accept(OfferedCheckpoint(t.receiver.session))])
            && (!policyAllows || !permitFree ==> t == s.(toSender := s.toSender + [Reject]))
            && (policyAllows && permitFree && !MayOpen(offered, s.store) ==>
                  t == s.(store := t.store, toSender := s.toSender + [Cancel]))
  {
    PrepareSucceedsIff(hash, s.store, offered);
    hide Prepare, MayOpen, Separate, Reconciled, OfferedCheckpoint, InStep, WriterInStep;
    var (store, prepared) := Prepare(hash, s.store, offered);
  }

  /** Whether the peer would take the offer, its disk aside. */
  predicate Welcome(own: Manifest, p: Peer, offered: Manifest, policyAllows: bool, permitFree: bool) {
    match p.work
    case Idle => policyAllows && permitFree
    case Sending(phase) => phase.Offering? && policyAllows && !C.OutboundWins(own, offered)
    case _ => false
  }

  /**
   * A peer starts receiving exactly for a welcome offer that its store may open;
   * an unwelcome one changes nothing and is answered with Reject.
   */
  lemma PeerAnswersIff(hash: Hash, own: Manifest, p: Peer, offered: Manifest, policyAllows: bool, permitFree: bool)
    requires Separate(offered) && !p.work.Gone? && (p.work.Accepting? ==> !p.work.receiver.Listening?)
    ensures var (p', sent) := Receive(hash, own, p, Tagged(offered.id, Offer(offered)), policyAllows, permitFree);
            var welcome := Welcome(own, p, offered, policyAllows, permitFree);
            && (!welcome ==> p' == p && sent == [Tagged(offered.id, Reject)])
            && (welcome && MayOpen(offered, p.store) ==>
                  && p'.work.Accepting? && p'.work.receiver.Receiving?
                  && p'.work.receiver.session.manifest == offered
                  && sent == [Tagged(offered.id, Accept(OfferedCheckpoint(p'.work.receiver.session)))])
            && (welcome && !MayOpen(offered, p.store) ==>
                  !p'.work.Accepting? && sent == if p.work.Idle? then [Tagged(offered.id, Cancel)] else [])
            && p'.queued == p.queued
  {
    PrepareSucceedsIff(hash, p.store, offered);
    hide Prepare, MayOpen, Separate, Reconciled, OfferedCheckpoint, InStep, WriterInStep, ReceiverReceives,
         SenderReceives;
    var (store, prepared) := Prepare(hash, p.store, offered);
  }

  /** What a waiting sender is waiting for. */
  predicate Awaited(m: Manifest, sender: SenderPhase, message: Message) {
    match sender
    case Offering => message.Accept? && (message.checkpoint.Some? ==>
                                           ValidCheckpoint(m, message.checkpoint.value, false))
    case AwaitingCheckpoint(_, _, _, expected) => message == CheckpointMessage(expected)
    case AwaitingTerminal => message.Ack? && Ok(message.acknowledged) == TerminalCheckpoint(m)
    case _ => false
  }

  /**
   * A waiting sender goes on exactly with what it waits for, comes to rest with
   * its record kept when turned away, and hangs up on anything else; only the
   * final acknowledgement takes the record out of the queue.
   */
  lemma SenderGoesOnIff(m: Manifest, s: Place, message: Message)
    requires s.sender.Offering? || s.sender.AwaitingCheckpoint? || s.sender.AwaitingTerminal?
    ensures var t := SenderReceives(m, s, message);
            var awaited, turnedAway := Awaited(m, s.sender, message), message.Reject? || message.Cancel?;
            && (t.sender.Streaming? <==> awaited && !s.sender.AwaitingTerminal?)
            && (t.sender.HungUp? <==> !awaited && !turnedAway)
            && (turnedAway ==> t == s.(sender := Resting))
            && (t.queued <==> s.queued && !(awaited && s.sender.AwaitingTerminal?))
  {
    hide ValidCheckpoint, TerminalCheckpoint;
  }

  /**
   * A session outlives a message exactly when that is another offer, a chunk that
   * is taken, or the acknowledgement it waits for.
   */
  lemma SessionGoesOnIff(hash: Hash, m: Manifest, s: Place, message: Message, policyAllows: bool, permitFree: bool)
    requires !s.receiver.Listening?
    ensures var t := ReceiverReceives(hash, m, s, message, policyAllows, permitFree);
            !t.receiver.Listening? <==>
            || message.Offer?
            || (s.receiver.Receiving? && message.ChunkMessage?
                && TakeChunk(hash, s.store, s.receiver.session, message.chunk).2.Ok?)
            || (s.receiver.AwaitingAck? && message == Ack(s.receiver.expected))
  {
    hide TakeChunk, Finish;
    if message.ChunkMessage? && s.receiver.Receiving? {
      var (store, session, r) := TakeChunk(hash, s.store, s.receiver.session, message.chunk);
    } else if message.Complete? && s.receiver.Receiving? {
      var (store, session, r) := Finish(s.store, s.receiver.session, message.transferred);
    }
  }

  /** A session without progress is given up, and whatever it has stored stays. */
  lemma SilenceEndsSession(hash: Hash, m: Manifest, s: Place, p: Peer)
    ensures var t := TransferProtocol.Step(hash, m, s, ReceiverTimesOut);
            && t.receiver.Listening? && t.store == s.store
            && (s.receiver.Listening? <==> t.toSender == s.toSender)
    ensures var (p', sent) := TimeOut(p);
            && p'.store == p.store && p'.queued == p.queued
            && (Awaits(p.work) && !p.work.Idle? && (p.work.Accepting? ==> !p.work.receiver.Listening?) ==>
                  p'.work.Idle? || p'.work.Gone?)
            && (p'.work.Idle? && !p.work.Idle? ==> |sent| == 1 && sent[0].message.Cancel?)
  {
    assert |s.toSender + [Cancel]| == |s.toSender| + 1;
  }

  // ---------------------------------------------------------------- one transfer inside the two-way system

  function WorkOf(sender: SenderPhase): Work {
    if sender.Resting? then Idle else if sender.HungUp? then Gone else Sending(sender)
  }

  function ListeningWork(receiver: ReceiverPhase): Work {
    if receiver.Listening? then Idle else Accepting(receiver, false)
  }

  /** The left peer sends and the right peer receives as in `t`; nothing else is in flight. */
  ghost predicate Carries(own: Manifest, s: Duplex, t: Place) {
    && s.left.queued == t.queued && s.left.sources == t.sources && s.left.work == WorkOf(t.sender)
    && s.right.store == t.store && s.right.work == ListeningWork(t.receiver)
    && s.toRight == TagAll(own.id, t.toReceiver) && s.toLeft == TagAll(own.id, t.toSender)
    && forall message :: message in t.toSender ==> !message.Offer?
  }

  /** The right peer's own transfer and the left peer's disk are as they were. */
  predicate RestKept(before: Duplex, after: Duplex) {
    && after.left.store == before.left.store && after.right.queued == before.right.queued
    && after.right.sources == before.right.sources
  }

  function ActionFor(t: Place): Doing {
    if t.toReceiver != [] then Receives(Right, true, true)
    else if t.sender.Streaming? || t.sender.HungUp? || (t.sender.Resting? && t.queued) || t.toSender == []
      then Moves(Left, true)
    else Receives(Left, true, true)
  }

  lemma TagAppend(id: TransferId, a: seq<Message>, b: seq<Message>)
    ensures TagAll(id, a + b) == TagAll(id, a) + TagAll(id, b)
  {
  }

  lemma TagOne(id: TransferId, message: Message)
    ensures TagAll(id, [message]) == [Tagged(id, message)]
  {
  }

  lemma TagRest(id: TransferId, a: seq<Message>)
    requires a != []
    ensures TagAll(id, a)[0] == Tagged(id, a[0]) && TagAll(id, a)[1..] == TagAll(id, a[1..])
  {
  }

  /** What the receiver's half of a step changes. */
  function WithReceiver(s: Place, t: Place): Place {
    s.(store := t.store, receiver := t.receiver, toSender := s.toSender + t.toSender)
  }

  function WithSender(s: Place, t: Place): Place {
    s.(sender := t.sender, queued := t.queued, toReceiver := s.toReceiver + t.toReceiver)
  }

  lemma ReplyFrame(s: Place, t: Place, message: Message)
    requires t.toSender == []
    ensures WithReceiver(s, SendToSender(t, message)) == SendToSender(WithReceiver(s, t), message)
  {
    assert s.toSender + ([] + [message]) == s.toSender + [] + [message];
  }

  lemma MessageFrame(s: Place, t: Place, message: Message)
    requires t.toReceiver == []
    ensures WithSender(s, SendToReceiver(t, message)) == SendToReceiver(WithSender(s, t), message)
  {
    assert s.toReceiver + ([] + [message]) == s.toReceiver + [] + [message];
  }

  /** The receiver's half of a step does not look at the sender's. */
  lemma ReceiverFrame(hash: Hash, m: Manifest, s: Place, p: Peer, message: Message)
    requires p.store == s.store
    ensures ReceiverReceives(hash, m, s, message, true, true)
            == WithReceiver(s, ReceiverReceives(hash, m, Incoming(p, s.receiver), message, true, true))
  {
    var t := Incoming(p, s.receiver);
    assert WithReceiver(s, t) == s && t.toSender == [] && t.receiver == s.receiver && t.store == s.store;
    match s.receiver
    case Listening => ListeningFrame(hash, m, s, t, message);
    case Receiving(_) => ReceivingFrame(hash, m, s, t, message);
    case AwaitingAck(_, _) => AwaitingAckFrame(hash, m, s, t, message);
  }

  ghost predicate SameReceiving(s: Place, t: Place) {
    t.toSender == [] && t.receiver == s.receiver && t.store == s.store
  }

  lemma ListeningFrame(hash: Hash, m: Manifest, s: Place, t: Place, message: Message)
    requires SameReceiving(s, t) && s.receiver.Listening?
    ensures ReceiverReceives(hash, m, s, message, true, true)
            == WithReceiver(s, ReceiverReceives(hash, m, t, message, true, true))
  {
    hide Prepare, OfferedCheckpoint;
    var r := ReceiverReceives(hash, m, t, message, true, true);
    assert |r.toSender| == 1;
    ReplyFrame(s, r.(toSender := []), r.toSender[0]);
  }

  lemma ReceivingFrame(hash: Hash, m: Manifest, s: Place, t: Place, message: Message)
    requires SameReceiving(s, t) && s.receiver.Receiving?
    ensures ReceiverReceives(hash, m, s, message, true, true)
            == WithReceiver(s, ReceiverReceives(hash, m, t, message, true, true))
  {
    if message.ChunkMessage? {
      ChunkFrame(hash, m, s, t, message.chunk);
      hide ReceiverReceives;
    } else if message.Complete? {
      CompleteFrame(hash, m, s, t, message.transferred);
      hide ReceiverReceives;
    } else {
      ReplyFrame(s, t, Reject);
      ReplyFrame(s, t.(receiver := Listening), Cancel);
    }
  }

  lemma ChunkFrame(hash: Hash, m: Manifest, s: Place, t: Place, chunk: Chunk)
    requires SameReceiving(s, t) && s.receiver.Receiving?
    ensures ReceiverReceives(hash, m, s, ChunkMessage(chunk), true, true)
            == WithReceiver(s, ReceiverReceives(hash, m, t, ChunkMessage(chunk), true, true))
  {
    hide TakeChunk, Finish;
    var (store, session, r) := TakeChunk(hash, t.store, t.receiver.session, chunk);
    if r.Ok? {
      ReplyFrame(s, t.(store := store, receiver := AwaitingAck(session, r.value)), CheckpointMessage(r.value));
    } else {
      ReplyFrame(s, t.(store := store, receiver := Listening), Cancel);
    }
  }

  lemma CompleteFrame(hash: Hash, m: Manifest, s: Place, t: Place, transferred: nat)
    requires SameReceiving(s, t) && s.receiver.Receiving?
    ensures ReceiverReceives(hash, m, s, Complete(transferred), true, true)
            == WithReceiver(s, ReceiverReceives(hash, m, t, Complete(transferred), true, true))
  {
    hide TakeChunk, Finish;
    var (store, session, r) := Finish(t.store, t.receiver.session, transferred);
    ReplyFrame(s, t.(store := store, receiver := Listening), if r.Ok? then Ack(r.value) else Cancel);
  }

  lemma AwaitingAckFrame(hash: Hash, m: Manifest, s: Place, t: Place, message: Message)
    requires SameReceiving(s, t) && s.receiver.AwaitingAck?
    ensures ReceiverReceives(hash, m, s, message, true, true)
            == WithReceiver(s, ReceiverReceives(hash, m, t, message, true, true))
  {
    ReplyFrame(s, t, Reject);
    ReplyFrame(s, t.(receiver := Listening), Cancel);
  }

  ghost predicate SameSending(s: Place, t: Place) {
    t.toReceiver == [] && t.sender == s.sender && t.sources == s.sources && t.queued == s.queued
  }

  /** Nor the sender's half at the receiver's. */
  lemma StreamFrame(hash: Hash, m: Manifest, s: Place, t: Place)
    requires SameSending(s, t) && s.sender.Streaming?
    ensures SenderStep(hash, m, s) == WithSender(s, SenderStep(hash, m, t))
  {
    var Streaming(resume, index, reader) := s.sender;
    MessageFrame(s, t.(sender := AwaitingTerminal), Complete(m.totalBytes));
    if IsFileAt(m, index) {
      FileFrame(hash, m, s, t, resume, index, reader);
    }
    hide StreamFile;
  }

  lemma FileFrame(hash: Hash, m: Manifest, s: Place, t: Place, resume: Option<Checkpoint>, index: nat,
                  reader: Option<Reader>)
    requires SameSending(s, t) && IsFileAt(m, index)
    ensures StreamFile(hash, m, s, resume, index, reader) ==
            WithSender(s, StreamFile(hash, m, t, resume, index, reader))
  {
    hide OpenReader, NextChunk, CheckpointAfterChunk, ResumeOffset;
    if reader.Some? {
      var next := NextChunk(m, index, SourceAt(t, index), reader.value);
      if next.Ok? && next.value.0.Some? {
        var chunk := next.value.0.value;
        var end := CheckpointAfterChunk(m, index, chunk.offset + chunk.plainLen);
        MessageFrame(s, t.(sender := AwaitingCheckpoint(resume, index, next.value.1, end)), ChunkMessage(chunk));
      }
      MessageFrame(s, t.(sender := Resting), Cancel);
    }
  }

  lemma AnswerFrame(m: Manifest, s: Place, t: Place, message: Message)
    requires SameSending(s, t)
    ensures SenderReceives(m, s, message) == WithSender(s, SenderReceives(m, t, message))
  {
    match s.sender {
      case Offering => OfferingFrame(m, s, t, message);
      case AwaitingCheckpoint(_, _, _, _) => AwaitingCheckpointFrame(m, s, t, message);
      case AwaitingTerminal => AwaitingTerminalFrame(m, s, t, message);
      case _ => MessageFrame(s, t, Cancel);
    }
  }

  lemma OfferingFrame(m: Manifest, s: Place, t: Place, message: Message)
    requires SameSending(s, t) && s.sender.Offering?
    ensures SenderReceives(m, s, message) == WithSender(s, SenderReceives(m, t, message))
  {
    hide ValidCheckpoint;
    MessageFrame(s, t.(sender := HungUp), Cancel);
  }

  lemma AwaitingCheckpointFrame(m: Manifest, s: Place, t: Place, message: Message)
    requires SameSending(s, t) && s.sender.AwaitingCheckpoint?
    ensures SenderReceives(m, s, message) == WithSender(s, SenderReceives(m, t, message))
  {
    MessageFrame(s, t.(sender := HungUp), Cancel);
    if message.CheckpointMessage? {
      var AwaitingCheckpoint(resume, index, rd, _) := s.sender;
      MessageFrame(s, t.(sender := Streaming(resume, index, Some(rd))), Ack(message.persisted));
    }
  }

  lemma AwaitingTerminalFrame(m: Manifest, s: Place, t: Place, message: Message)
    requires SameSending(s, t) && s.sender.AwaitingTerminal?
    ensures SenderReceives(m, s, message) == WithSender(s, SenderReceives(m, t, message))
  {
    hide TerminalCheckpoint;
    MessageFrame(s, t.(sender := HungUp), Cancel);
  }

  lemma NoOfferBack(hash: Hash, m: Manifest, s: Place, message: Message)
    requires s.toSender == []
    ensures forall reply :: reply in ReceiverReceives(hash, m, s, message, true, true).toSender ==> !reply.Offer?
  {
    hide Prepare, TakeChunk, Finish, OfferedCheckpoint;
  }

  /** The receiving half of a tick is a step of the right peer. */
  lemma ReceiverTickCarried(hash: Hash, own: Manifest, other: Manifest, s: Duplex, t: Place)
    requires Carries(own, s, t) && t.toReceiver != [] && Sound(hash, own, t)
    ensures var s' := TransferBothWays.Step(hash, own, other, s, ActionFor(t));
            Carries(own, s', Tick(hash, own, t)) && RestKept(s, s')
  {
    var message, taken := t.toReceiver[0], t.(toReceiver := t.toReceiver[1..]);
    SessionOfTransfer(hash, own, t);
    hide Prepare, TakeChunk, Finish, OfferedCheckpoint, Sound, Incoming;
    TagRest(own.id, t.toReceiver);
    ReceiverFrame(hash, own, taken, s.right, message);
    var u := ReceiverReceives(hash, own, Incoming(s.right, t.receiver), message, true, true);
    NoOfferBack(hash, own, Incoming(s.right, t.receiver), message) by { IncomingIsQuiet(s.right, t.receiver); }
    TagAppend(own.id, t.toSender, u.toSender);
    RightReceives(hash, own, other, s, t);
    hide ReceiverReceives, TransferBothWays.Step, TagAll;
    assert Tick(hash, own, t) == ReceiverReceives(hash, own, taken, message, true, true);
  }

  lemma IncomingIsQuiet(p: Peer, receiver: ReceiverPhase)
    ensures Incoming(p, receiver).toSender == []
  {
  }

  /** Sessions and offers on the way are of the transfer itself. */
  lemma SessionOfTransfer(hash: Hash, own: Manifest, t: Place)
    requires Sound(hash, own, t)
    ensures !t.receiver.Listening? ==> t.receiver.session.manifest == own
    ensures forall message :: message in t.toReceiver && message.Offer? ==> message.manifest == own
  {
    hide InStep, WriterInStep, Delivered, Completed;
  }

  /** What the right peer makes of the message, as the receiver's half sees it. */
  lemma RightReceives(hash: Hash, own: Manifest, other: Manifest, s: Duplex, t: Place)
    requires Carries(own, s, t) && t.toReceiver != []
    requires !t.receiver.Listening? ==> t.receiver.session.manifest == own
    requires t.toReceiver[0].Offer? ==> t.toReceiver[0].manifest == own
    ensures var u := ReceiverReceives(hash, own, Incoming(s.right, t.receiver), t.toReceiver[0], true, true);
            TransferBothWays.Step(hash, own, other, s, Receives(Right, true, true)) ==
            s.(right := s.right.(store := u.store, work := ListeningWork(u.receiver)), toRight := s.toRight[1..],
               toLeft := s.toLeft + TagAll(own.id, u.toSender))
  {
    TagRest(own.id, t.toReceiver);
    RightAnswers(hash, other, own, s.right, t.receiver, t.toReceiver[0]);
    hide Receive, ReceiverReceives, TagAll;
  }

  lemma EnterAnswers(hash: Hash, own: Manifest, p: Peer)
    requires p.work.Idle?
    ensures var u := ReceiverReceives(hash, own, Incoming(p, Listening), Offer(own), true, true);
            Enter(hash, p, own, false) ==
            (p.(store := u.store, work := ListeningWork(u.receiver)), TagAll(own.id, u.toSender))
  {
    hide Prepare, OfferedCheckpoint, TagAll;
    var (store, prepared) := Prepare(hash, p.store, own);
    var reply := if prepared.Err? then Cancel else Accept(OfferedCheckpoint(prepared.value));
    assert ReceiverReceives(hash, own, Incoming(p, Listening), Offer(own), true, true).toSender == [reply];
    TagOne(own.id, reply);
  }

  lemma RightAnswers(hash: Hash, other: Manifest, own: Manifest, p: Peer, receiver: ReceiverPhase, message: Message)
    requires p.work == ListeningWork(receiver)
    requires !receiver.Listening? ==> receiver.session.manifest == own
    requires message.Offer? ==> message.manifest == own
    ensures var u := ReceiverReceives(hash, own, Incoming(p, receiver), message, true, true);
            Receive(hash, other, p, Tagged(own.id, message), true, true) ==
            (p.(store := u.store, work := ListeningWork(u.receiver)), TagAll(own.id, u.toSender))
  {
    hide Prepare, TakeChunk, Finish, OfferedCheckpoint;
    if receiver.Listening? {
      if message.Offer? {
        EnterAnswers(hash, own, p);
      } else {
        TagOne(own.id, Cancel);
        assert ReceiverReceives(hash, own, Incoming(p, receiver), message, true, true).toSender == [Cancel];
      }
    } else if message.Offer? {
      TagOne(own.id, Reject);
      assert ReceiverReceives(hash, own, Incoming(p, receiver), message, true, true).toSender == [Reject];
    }
  }

  /** The sending half of a tick is a step of the left peer. */
  lemma SenderTickCarried(hash: Hash, own: Manifest, other: Manifest, s: Duplex, t: Place)
    requires Carries(own, s, t) && t.toReceiver == []
    ensures var s' := TransferBothWays.Step(hash, own, other, s, ActionFor(t));
            Carries(own, s', Tick(hash, own, t)) && RestKept(s, s')
  {
    if t.sender.Streaming? {
      StreamFrame(hash, own, t, Outgoing(s.left, t.sender));
      hide SenderStep;
    } else if t.sender.HungUp? || t.toSender == [] || (t.sender.Resting? && t.queued) {
      TagOne(own.id, Offer(own));
      assert s.toLeft + [] == s.toLeft && s.toRight + [] == s.toRight;
    } else {
      LeftAnswers(hash, own, other, s, t);
    }
  }

  lemma LeftAnswers(hash: Hash, own: Manifest, other: Manifest, s: Duplex, t: Place)
    requires Carries(own, s, t) && t.toReceiver == [] && t.toSender != []
    requires !t.sender.Streaming? && !t.sender.HungUp? && !(t.sender.Resting? && t.queued)
    ensures var s' := TransferBothWays.Step(hash, own, other, s, Receives(Left, true, true));
            Carries(own, s', Tick(hash, own, t)) && RestKept(s, s')
  {
    var message, taken := t.toSender[0], t.(toSender := t.toSender[1..]);
    TagRest(own.id, t.toSender);
    AnswerFrame(own, taken, Outgoing(s.left, t.sender), message);
    RestingCancels(own, taken, message);
    hide SenderReceives, TagAll;
    TagOne(own.id, Cancel);
    var u := SenderReceives(own, Outgoing(s.left, t.sender), message);
    TagAppend(own.id, [], u.toReceiver);
    assert t.toReceiver + u.toReceiver == u.toReceiver && s.toRight + TagAll(own.id, u.toReceiver)
                                                           == TagAll(own.id, u.toReceiver);
  }

  lemma RestingCancels(own: Manifest, t: Place, message: Message)
    requires t.toReceiver == []
    ensures t.sender.Resting? ==> SenderReceives(own, t, message) == t.(toReceiver := [Cancel])
  {
  }

  lemma TickCarried(hash: Hash, own: Manifest, other: Manifest, s: Duplex, t: Place)
    requires Carries(own, s, t) && Sound(hash, own, t)
    ensures var s' := TransferBothWays.Step(hash, own, other, s, ActionFor(t));
            Carries(own, s', Tick(hash, own, t)) && RestKept(s, s')
  {
    hide *;
    if t.toReceiver != [] {
      ReceiverTickCarried(hash, own, other, s, t);
    } else {
      SenderTickCarried(hash, own, other, s, t);
    }
  }

  // ---------------------------------------------------------------- one transfer delivered, then the other

  lemma OneMore(hash: Hash, left: Manifest, right: Manifest, s: Duplex, actions: seq<Doing>, a: Doing)
    ensures TransferBothWays.Run(hash, left, right, s, actions + [a]) ==
            TransferBothWays.Step(hash, left, right, TransferBothWays.Run(hash, left, right, s, actions), a)
  {
    hide TransferBothWays.Step;
    assert (actions + [a])[..|actions|] == actions;
  }

  /** Any number of exchanges of one transfer are a run of the two-way system. */
  lemma {:induction false} TicksCarried(hash: Hash, own: Manifest, other: Manifest, s: Duplex, t: Place, n: nat)
    returns (actions: seq<Doing>)
    requires Separate(own) && Carries(own, s, t) && Sound(hash, own, t)
    ensures var s' := TransferBothWays.Run(hash, own, other, s, actions);
            Carries(own, s', Ticks(hash, own, t, n)) && RestKept(s, s') && Sound(hash, own, Ticks(hash, own, t, n))
  {
    hide Separate, Carries, Sound, Tick, TransferBothWays.Step;
    if n == 0 {
      actions := [];
    } else {
      var front := TicksCarried(hash, own, other, s, t, n - 1);
      var before := Ticks(hash, own, t, n - 1);
      actions := front + [ActionFor(before)];
      OneMore(hash, own, other, s, front, ActionFor(before));
      TickCarried(hash, own, other, TransferBothWays.Run(hash, own, other, s, front), before);
      TicksCompose(hash, own, t, n - 1, 1);
      assert Ticks(hash, own, before, 1) == Tick(hash, own, before) by { FewTicks(hash, own, before); }
      TickKeepsSound(hash, own, before);
    }
  }

  lemma TickKeepsSound(hash: Hash, m: Manifest, s: Place)
    requires Separate(m) && Sound(hash, m, s)
    ensures Sound(hash, m, Tick(hash, m, s))
  {
    hide Sound, Separate, ReceiverStep, SenderStep;
    if s.toReceiver != [] {
      ReceiverStepSound(hash, m, s, true, true);
    } else {
      SenderStepSound(hash, m, s);
    }
  }

  /** The left peer as a sender at rest, the right peer as a receiver at rest. */
  function AtRest(s: Duplex): Place {
    State(s.left.queued, Resting, s.left.sources, [], [], s.right.store, Listening)
  }

  predicate BothIdle(s: Duplex) {
    s.left.work.Idle? && s.right.work.Idle? && s.toLeft == [] && s.toRight == []
  }

  /** The left peer's transfer can be delivered from rest: what its own undisturbed course needs. */
  ghost predicate Deliverable(hash: Hash, own: Manifest, s: Duplex) {
    && Separate(own) && BothIdle(s) && Rested(hash, own, AtRest(s)) && MayOpen(own, s.right.store)
    && NoFinishedEmptyFile(own, ResumePoint(hash, own, AtRest(s)))
  }

  lemma RestCarries(hash: Hash, own: Manifest, s: Duplex)
    requires BothIdle(s) && Rested(hash, own, AtRest(s))
    ensures Carries(own, s, AtRest(s)) && Sound(hash, own, AtRest(s))
  {
    hide ReceiverSound, SourcesIntact;
  }

  /** A deliverable transfer is delivered, and the peers come to rest with the other transfer as it was. */
  lemma LeftDelivers(hash: Hash, own: Manifest, other: Manifest, s: Duplex) returns (actions: seq<Doing>)
    requires Deliverable(hash, own, s)
    ensures var s' := TransferBothWays.Run(hash, own, other, s, actions);
            !s'.left.queued && Completed(hash, own, s'.right.store) && RestKept(s, s') && BothIdle(s')
  {
    hide Rested, MayOpen, NoFinishedEmptyFile, ResumePoint, Separate, Ticks, TransferBothWays.Run, Completed, Sound,
         Carries;
    RestCarries(hash, own, s);
    var n := UndisturbedDelivers(hash, own, AtRest(s));
    var front := TicksCarried(hash, own, other, s, AtRest(s), n);
    var delivered := TransferBothWays.Run(hash, own, other, s, front);
    TakenIsCompleted(hash, own, delivered, Ticks(hash, own, AtRest(s), n));
    actions := front + [TransferBothWays.Action.Disconnect];
    OneMore(hash, own, other, s, front, TransferBothWays.Action.Disconnect);
  }

  lemma TakenIsCompleted(hash: Hash, own: Manifest, s: Duplex, t: Place)
    requires Carries(own, s, t) && Sound(hash, own, t) && !t.queued
    ensures !s.left.queued && Completed(hash, own, s.right.store)
  {
    hide Completed, ReceiverSound, TagAll;
  }

  function Flip(a: Doing): Doing {
    if a.Disconnect? then a else a.(side := if a.side.Left? then Right else Left)
  }

  lemma MirrorStep(hash: Hash, left: Manifest, right: Manifest, s: Duplex, a: Doing)
    ensures TransferBothWays.Step(hash, right, left, Mirror(s), Flip(a)) ==
            Mirror(TransferBothWays.Step(hash, left, right, s, a))
  {
    hide Move, Receive, TimeOut, MayTearInto;
    assert Mirror(Mirror(s)) == s;
  }

  /** A run seen from the other side. */
  lemma {:induction false} MirrorRun(hash: Hash, left: Manifest, right: Manifest, s: Duplex, actions: seq<Doing>)
    returns (flipped: seq<Doing>)
    ensures TransferBothWays.Run(hash, right, left, Mirror(s), flipped) ==
            Mirror(TransferBothWays.Run(hash, left, right, s, actions))
    decreases |actions|
  {
    hide TransferBothWays.Step, Mirror;
    if actions == [] {
      flipped := [];
    } else {
      var front, a := actions[..|actions| - 1], actions[|actions| - 1];
      var before := MirrorRun(hash, left, right, s, front);
      flipped := before + [Flip(a)];
      OneMore(hash, right, left, Mirror(s), before, Flip(a));
      MirrorStep(hash, left, right, TransferBothWays.Run(hash, left, right, s, front), a);
    }
  }

  lemma {:induction false} RunOn(hash: Hash, left: Manifest, right: Manifest, s: Duplex, a: seq<Doing>, b: seq<Doing>)
    ensures TransferBothWays.Run(hash, left, right, s, a + b) ==
            TransferBothWays.Run(hash, left, right, TransferBothWays.Run(hash, left, right, s, a), b)
    decreases |b|
  {
    hide TransferBothWays.Step;
    if b == [] {
      assert a + b == a;
    } else {
      var front, last := b[..|b| - 1], b[|b| - 1];
      assert a + b == (a + front) + [last];
      OneMore(hash, left, right, s, a + front, last);
      RunOn(hash, left, right, s, a, front);
    }
  }

  /**
   * Two peers at rest, each with a deliverable transfer for the other: there is a
   * run after which both queue records are gone and both peers have recorded
   * delivery of every declared file.
   */
  lemma BothDeliver(hash: Hash, left: Manifest, right: Manifest, s: Duplex) returns (actions: seq<Doing>)
    requires Deliverable(hash, left, s) && Deliverable(hash, right, Mirror(s))
    ensures var s' := TransferBothWays.Run(hash, left, right, s, actions);
            && !s'.left.queued && Completed(hash, left, s'.right.store)
            && !s'.right.queued && Completed(hash, right, s'.left.store)
  {
    hide TransferBothWays.Run, Completed, Rested, MayOpen, NoFinishedEmptyFile, Separate, ResumePoint;
    var first := LeftDelivers(hash, left, right, s);
    var half := TransferBothWays.Run(hash, left, right, s, first);
    assert AtRest(Mirror(half)) == AtRest(Mirror(s));
    var mirrored := LeftDelivers(hash, right, left, Mirror(half));
    var second := MirrorRun(hash, right, left, Mirror(half), mirrored);
    assert Mirror(Mirror(half)) == half;
    RunOn(hash, left, right, s, first, second);
    actions := first + second;
  }

  /** On empty disks both transfers are delivered when no directory of either is named like one of its files' parts. */
  lemma BothFirstAttemptsDeliver(hash: Hash, left: Manifest, right: Manifest, leftSources: seq<Option<Bytes>>,
                                 rightSources: seq<Option<Bytes>>)
    returns (actions: seq<Doing>)
    requires Separate(left) && NoPartDirectory(left) && SourcesIntact(hash, left, leftSources)
    requires Separate(right) && NoPartDirectory(right) && SourcesIntact(hash, right, rightSources)
    ensures var s := TransferBothWays.Run(hash, left, right, TransferBothWays.Start(leftSources, rightSources),
                                          actions);
            && !s.left.queued && Completed(hash, left, s.right.store)
            && !s.right.queued && Completed(hash, right, s.left.store)
  {
    hide TransferBothWays.Run, Completed, Separate, NoPartDirectory, SourcesIntact;
    var s := TransferBothWays.Start(leftSources, rightSources);
    StartDeliverable(hash, left, leftSources, rightSources);
    StartDeliverable(hash, right, rightSources, leftSources);
    assert Mirror(s) == TransferBothWays.Start(rightSources, leftSources);
    actions := BothDeliver(hash, left, right, s);
  }

  lemma StartDeliverable(hash: Hash, own: Manifest, ownSources: seq<Option<Bytes>>, otherSources: seq<Option<Bytes>>)
    requires Separate(own) && NoPartDirectory(own) && SourcesIntact(hash, own, ownSources)
    ensures Deliverable(hash, own, TransferBothWays.Start(ownSources, otherSources))
  {
    var s := TransferBothWays.Start(ownSources, otherSources);
    EmptyDiskResumesNowhere(hash, own, s.right.store.disk, 0, false);
  }
}
