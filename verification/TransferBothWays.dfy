/**
 * Two peers that each have a transfer queued for the other, over one connection:
 * apps/desktop/src/file_transfer.rs:354-505 (idle loop), 751-990 (sender, with the collision of
 * offers), 1051-1161 (receiver).  A peer does one thing at a time, as its one
 * transfer permit allows; messages carry the identifier of their transfer, and
 * those of other transfers are ignored while one is under way.
 */
module TransferBothWays {
  import opened Wrappers
  import opened TransferCheckpoint
  import opened ReceiveDisk
  import opened ReceiveSession
  import opened TransferProtocol
  import C = OfferCollision

  datatype Tagged = Tagged(id: TransferId, message: Message)

  /**
   * What a peer is at.  A session that was entered from its own offer, on losing the collision, takes the
   * connection down where one entered from rest would send a Cancel.
   */
  datatype Work =
    | Idle
    | Sending(phase: SenderPhase)
    | Accepting(receiver: ReceiverPhase, collided: bool)
    | Gone

  /** `store` is what the peer keeps of the transfer it receives. */
  datatype Peer = Peer(queued: bool, sources: seq<Option<Bytes>>, work: Work, store: Store)

  datatype Duplex = Duplex(left: Peer, right: Peer, toLeft: seq<Tagged>, toRight: seq<Tagged>)

  datatype Side = Left | Right

  datatype Action =
    | Moves(side: Side, permitFree: bool)
    | Receives(side: Side, policyAllows: bool, permitFree: bool)
    | TimesOut(side: Side)
    | MessageLost(side: Side, place: nat)
    | MessageOvertakes(side: Side, place: nat)
    | Disconnect
    | SourceChanges(side: Side, sources: seq<Option<Bytes>>)
    | CrashTearsDisk(side: Side, torn: Store)

  // ---------------------------------------------------------------- one peer

  /** The peer's own transfer as the sender's half sees it. */
  function Outgoing(p: Peer, phase: SenderPhase): State {
    State(p.queued, phase, p.sources, [], [], p.store, Listening)
  }

  /** The peer's transfer as the receiver's half sees it. */
  function Incoming(p: Peer, receiver: ReceiverPhase): State {
    State(true, Resting, [], [], [], p.store, receiver)
  }

  function TagAll(id: TransferId, messages: seq<Message>): (r: seq<Tagged>)
    ensures |r| == |messages| && forall i :: 0 <= i < |r| ==> r[i] == Tagged(id, messages[i])
    ensures forall t :: t in r ==> t.id == id && t.message in messages
  {
    seq(|messages|, i requires 0 <= i < |messages| => Tagged(id, messages[i]))
  }

  /** Back from a step of the sender's half. */
  function AfterSending(own: Manifest, p: Peer, t: State): (Peer, seq<Tagged>) {
    var work := if t.sender.Resting? then Idle else if t.sender.HungUp? then Gone else Sending(t.sender);
    (p.(queued := t.queued, work := work), TagAll(own.id, t.toReceiver))
  }

  /** What a peer does unasked: offer its transfer, or go on streaming it. */
  function Move(hash: Hash, own: Manifest, p: Peer, permitFree: bool): (Peer, seq<Tagged>) {
    match p.work
    case Idle =>
      if p.queued && permitFree then (p.(work := Sending(Offering)), [Tagged(own.id, Offer(own))]) else (p, [])
    case Sending(phase) =>
      if phase.Streaming? then AfterSending(own, p, SenderStep(hash, own, Outgoing(p, phase))) else (p, [])
    case _ => (p, [])
  }

  /** Entering the receiving loop for an offer. */
  function Enter(hash: Hash, p: Peer, m: Manifest, collided: bool): (Peer, seq<Tagged>) {
    var (store, prepared) := Prepare(hash, p.store, m);
    match prepared
    case Err(_) =>
      if collided then (p.(store := store, work := Gone), [])
      else (p.(store := store, work := Idle), [Tagged(m.id, Cancel)])
    case Ok(session) =>
      (p.(store := store, work := Accepting(Receiving(session), collided)),
       [Tagged(m.id, Accept(OfferedCheckpoint(session)))])
  }

  /** Back from a step of the receiver's half: a failed session that was entered by collision ends the connection. */
  function AfterReceiving(p: Peer, id: TransferId, message: Message, collided: bool, t: State): (Peer, seq<Tagged>) {
    if !t.receiver.Listening? then
      (p.(store := t.store, work := Accepting(t.receiver, collided)), TagAll(id, t.toSender))
    else if collided && !message.ChunkMessage? && t.toSender == [Cancel] then (p.(store := t.store, work := Gone), [])
    else (p.(store := t.store, work := Idle), TagAll(id, t.toSender))
  }

  /** A peer takes a message. */
  function Receive(hash: Hash, own: Manifest, p: Peer, received: Tagged, policyAllows: bool, permitFree: bool)
    : (Peer, seq<Tagged>)
  {
    match p.work
    case Idle =>
      (match received.message
       case Offer(m) => if policyAllows && permitFree then Enter(hash, p, m, false) else (p, [Tagged(m.id, Reject)])
       case _ => (p, [Tagged(received.id, Cancel)]))
    case Sending(phase) =>
      if received.message.Offer? then
        var m := received.message.manifest;
        if phase.Offering? && policyAllows && !C.OutboundWins(own, m) then Enter(hash, p, m, true)
        else (p, [Tagged(m.id, Reject)])
      else if received.id != own.id then (p, [])
      else AfterSending(own, p, SenderReceives(own, Outgoing(p, phase), received.message))
    case Accepting(receiver, collided) =>
      if receiver.Listening? then (p, [])
      else if received.message.Offer? then (p, [Tagged(received.message.manifest.id, Reject)])
      else if received.id != receiver.session.manifest.id then (p, [])
      else
        var t := ReceiverReceives(hash, receiver.session.manifest, Incoming(p, receiver), received.message, true, true);
        AfterReceiving(p, received.id, received.message, collided, t)
    case Gone => (p, [])
  }

  /** While it reads its files a sender takes no messages. */
  predicate Awaits(work: Work) {
    !work.Gone? && !(work.Sending? && work.phase.Streaming?)
  }

  /** No progress in time: a receiver entered from rest sends a Cancel, any other work ends the connection. */
  function TimeOut(p: Peer): (Peer, seq<Tagged>) {
    match p.work
    case Sending(phase) => if phase.Streaming? then (p, []) else (p.(work := Gone), [])
    case Accepting(receiver, collided) =>
      if receiver.Listening? then (p, [])
      else if collided then (p.(work := Gone), [])
      else (p.(work := Idle), [Tagged(receiver.session.manifest.id, Cancel)])
    case _ => (p, [])
  }

  // ---------------------------------------------------------------- both peers

  function Lost<T>(messages: seq<T>, place: nat): (r: seq<T>)
    ensures forall message :: message in r ==> message in messages
  {
    if place < |messages| then messages[..place] + messages[place + 1..] else messages
  }

  function Overtaken<T>(messages: seq<T>, place: nat): (r: seq<T>)
    ensures forall message :: message in r ==> message in messages
  {
    if place < |messages| then [messages[place]] + Lost(messages, place) else messages
  }

  function Mirror(s: Duplex): Duplex {
    Duplex(s.right, s.left, s.toRight, s.toLeft)
  }

  function Disconnected(s: Duplex): Duplex {
    Duplex(s.left.(work := Idle), s.right.(work := Idle), [], [])
  }

  /** The steps of the left peer, whose manifest is `own`. */
  ghost function LeftStep(hash: Hash, own: Manifest, peers: Manifest, s: Duplex, a: Action): Duplex {
    match a
    case Moves(_, permitFree) =>
      var (p, sent) := Move(hash, own, s.left, permitFree);
      s.(left := p, toRight := s.toRight + sent)
    case Receives(_, policyAllows, permitFree) =>
      if s.toLeft == [] || !Awaits(s.left.work) then s
      else
        var (p, sent) := Receive(hash, own, s.left, s.toLeft[0], policyAllows, permitFree);
        s.(left := p, toLeft := s.toLeft[1..], toRight := s.toRight + sent)
    case TimesOut(_) =>
      var (p, sent) := TimeOut(s.left);
      s.(left := p, toRight := s.toRight + sent)
    case MessageLost(_, place) => s.(toLeft := Lost(s.toLeft, place))
    case MessageOvertakes(_, place) => s.(toLeft := Overtaken(s.toLeft, place))
    case Disconnect => Disconnected(s)
    case SourceChanges(_, sources) => s.(left := s.left.(sources := sources))
    case CrashTearsDisk(_, torn) =>
      if MayTearInto(hash, peers, s.left.store, torn) then
        var t := Disconnected(s);
        t.(left := t.left.(store := torn))
      else s
  }

  /** `left` and `right` are the manifests the two peers have queued. */
  ghost function Step(hash: Hash, left: Manifest, right: Manifest, s: Duplex, a: Action): Duplex {
    if a.Disconnect? then Disconnected(s)
    else if a.side.Left? then LeftStep(hash, left, right, s, a)
    else Mirror(LeftStep(hash, right, left, Mirror(s), a))
  }

  ghost function Run(hash: Hash, left: Manifest, right: Manifest, s: Duplex, actions: seq<Action>): Duplex
    decreases |actions|
  {
    if actions == [] then s
    else Step(hash, left, right, Run(hash, left, right, s, actions[..|actions| - 1]), actions[|actions| - 1])
  }

  function Start(left: seq<Option<Bytes>>, right: seq<Option<Bytes>>): Duplex {
    var nothing := Store(false, Disk(map[], multiset{}), None);
    Duplex(Peer(true, left, Idle, nothing), Peer(true, right, Idle, nothing), [], [])
  }

  // ---------------------------------------------------------------- safety

  function ReceiverOf(p: Peer): ReceiverPhase {
    if p.work.Accepting? then p.work.receiver else Listening
  }

  /** The receiving half of peer `p` is sound for the other peer's manifest. */
  ghost predicate PeerSound(hash: Hash, peers: Manifest, p: Peer) {
    ReceiverSound(hash, peers, Incoming(p, ReceiverOf(p)))
  }

  /** What peer `p` sends: offers of its own manifest, acknowledgements only of what it holds. */
  ghost predicate SentSound(hash: Hash, own: Manifest, peers: Manifest, p: Peer, sent: seq<Tagged>) {
    forall t :: t in sent ==>
      && (t.message.Offer? ==> t.message.manifest == own)
      && (t.message.Ack? && t.id == peers.id ==> Completed(hash, peers, p.store))
  }

  /** The half of the invariant about what `p` sends and receives, `other` being its peer. */
  ghost predicate HalfSound(
    hash: Hash, own: Manifest, peers: Manifest, p: Peer, other: Peer, sent: seq<Tagged>)
  {
    && PeerSound(hash, peers, p) && SentSound(hash, own, peers, p, sent)
    && (!p.queued ==> Completed(hash, own, other.store))
  }

  ghost predicate BothSound(hash: Hash, left: Manifest, right: Manifest, s: Duplex) {
    HalfSound(hash, left, right, s.left, s.right, s.toRight) && HalfSound(hash, right, left, s.right, s.left, s.toLeft)
  }

  /** What a peer's own step may do: keep what it holds, send soundly, and give up its queue record only on an Ack. */
  ghost predicate Follows(
    hash: Hash, own: Manifest, peers: Manifest, p: Peer, p': Peer, sent: seq<Tagged>, acked: bool)
  {
    && PeerSound(hash, peers, p') && SentSound(hash, own, peers, p', sent)
    && (Completed(hash, peers, p.store) ==> Completed(hash, peers, p'.store))
    && (!p'.queued ==> !p.queued || acked)
  }

  /**
   * A step that leaves the receiving half alone and sends nothing but offers of its own and other harmless messages.
   */
  lemma SendingFollows(hash: Hash, own: Manifest, peers: Manifest, p: Peer, p': Peer, sent: seq<Tagged>, acked: bool)
    requires PeerSound(hash, peers, p) && p'.store == p.store && p'.work.Accepting? == false
    requires forall t :: t in sent ==>
               (t.message.Offer? ==> t.message.manifest == own) && (t.message.Ack? ==> t.id != peers.id)
    requires !p'.queued ==> !p.queued || acked
    ensures Follows(hash, own, peers, p, p', sent, acked)
  {
    hide SessionInStep, Delivered;
  }

  lemma MoveFollows(hash: Hash, own: Manifest, peers: Manifest, p: Peer, permitFree: bool)
    requires PeerSound(hash, peers, p) && own.id != peers.id
    ensures var (p', sent) := Move(hash, own, p, permitFree); Follows(hash, own, peers, p, p', sent, false)
  {
    hide PeerSound, Follows, SenderStep;
    var (p', sent) := Move(hash, own, p, permitFree);
    if p.work.Sending? && p.work.phase.Streaming? {
      StreamingSends(hash, own, Outgoing(p, p.work.phase));
      SendingFollows(hash, own, peers, p, p', sent, false);
    } else if p.work.Idle? {
      SendingFollows(hash, own, peers, p, p', sent, false);
    } else {
      NothingFollows(hash, own, peers, p);
    }
  }

  lemma NothingFollows(hash: Hash, own: Manifest, peers: Manifest, p: Peer)
    requires PeerSound(hash, peers, p)
    ensures Follows(hash, own, peers, p, p, [], false) && Follows(hash, own, peers, p, p, [], true)
  {
    hide PeerSound, Completed;
  }

  /** What streaming sends is no offer and no acknowledgement. */
  lemma StreamingSends(hash: Hash, own: Manifest, s: State)
    requires s.sender.Streaming? && s.toReceiver == []
    ensures var t := SenderStep(hash, own, s);
            && t.queued == s.queued && t.store == s.store
            && forall message :: message in t.toReceiver ==> !message.Offer? && !message.Ack?
  {
    hide OpenReader, NextChunk, CheckpointAfterChunk;
  }

  lemma AnswerSends(own: Manifest, s: State, message: Message)
    requires s.toReceiver == []
    ensures var t := SenderReceives(own, s, message);
            && (!t.queued ==> !s.queued || message.Ack?)
            && forall reply :: reply in t.toReceiver ==> !reply.Offer?
  {
    hide ValidCheckpoint, TerminalCheckpoint;
  }

  lemma EnterFollows(hash: Hash, own: Manifest, peers: Manifest, p: Peer, collided: bool)
    requires Separate(peers) && PeerSound(hash, peers, p)
    ensures var (p', sent) := Enter(hash, p, peers, collided); Follows(hash, own, peers, p, p', sent, false)
  {
    hide Prepare, ReceiverSound, Separate, Completed, OfferedCheckpoint;
    PrepareSound(hash, peers, Incoming(p, ReceiverOf(p)));
    var (store, prepared) := Prepare(hash, p.store, peers);
  }

  /** A receiving session of the peer's transfer takes a message. */
  lemma SessionFollows(hash: Hash, own: Manifest, peers: Manifest, p: Peer, received: Tagged)
    requires Separate(peers) && PeerSound(hash, peers, p) && p.work.Accepting? && !p.work.receiver.Listening?
    requires !received.message.Offer? && received.id == p.work.receiver.session.manifest.id
    ensures var t := ReceiverReceives(hash, p.work.receiver.session.manifest, Incoming(p, p.work.receiver),
                                      received.message, true, true);
            var (p', sent) := AfterReceiving(p, received.id, received.message, p.work.collided, t);
            Follows(hash, own, peers, p, p', sent, false)
  {
    hide ReceiverReceives, ReceiverSound, Separate, Completed;
    SessionIsPeers(hash, peers, p);
    var s := Incoming(p, p.work.receiver);
    var t := ReceiverReceives(hash, peers, s, received.message, true, true);
    FreshIsSound(hash, peers, s);
    ReceiptSound(hash, peers, s, received.message, true, true);
    RepliesNoOffer(hash, peers, s, received.message);
    if Completed(hash, peers, p.store) {
      DoneStaysDone(hash, peers, s, received.message);
    }
    SoundParts(hash, peers, t);
    var p' := AfterReceiving(p, received.id, received.message, p.work.collided, t).0;
    SameReceiver(hash, peers, t, Incoming(p', ReceiverOf(p')));
  }

  lemma SameReceiver(hash: Hash, m: Manifest, s: State, t: State)
    requires ReceiverSound(hash, m, s) && t.store == s.store && t.receiver == s.receiver
    ensures ReceiverSound(hash, m, t)
  {
  }

  lemma SessionIsPeers(hash: Hash, peers: Manifest, p: Peer)
    requires PeerSound(hash, peers, p) && p.work.Accepting? && !p.work.receiver.Listening?
    ensures p.work.receiver.session.manifest == peers
  {
    hide InStep, WriterInStep, Delivered;
  }

  lemma FreshIsSound(hash: Hash, m: Manifest, s: State)
    requires ReceiverSound(hash, m, s) && s.toReceiver == [] && s.toSender == [] && s.queued
    ensures Sound(hash, m, s)
  {
    hide ReceiverSound;
  }

  lemma SoundParts(hash: Hash, m: Manifest, s: State)
    requires Sound(hash, m, s)
    ensures ReceiverSound(hash, m, s)
    ensures forall message :: message in s.toSender && message.Ack? ==> Completed(hash, m, s.store)
  {
    hide ReceiverSound, Completed;
  }

  lemma RepliesNoOffer(hash: Hash, m: Manifest, s: State, message: Message)
    requires s.toSender == [] && !s.receiver.Listening?
    ensures forall reply :: reply in ReceiverReceives(hash, m, s, message, true, true).toSender ==> !reply.Offer?
  {
    hide Prepare, TakeChunk, Finish;
  }

  /** What is completed stays completed: the same step with the queue record gone. */
  lemma DoneStaysDone(hash: Hash, m: Manifest, s: State, message: Message)
    requires Separate(m) && Sound(hash, m, s) && Completed(hash, m, s.store) && !message.Offer?
    ensures Completed(hash, m, ReceiverReceives(hash, m, s, message, true, true).store)
  {
    hide Prepare, TakeChunk, Finish, ReceiverSound, Completed, Separate;
    var done := s.(queued := false);
    SoundWithoutQueue(hash, m, s);
    ReceiptSound(hash, m, done, message, true, true);
    assert ReceiverReceives(hash, m, done, message, true, true).store ==
           ReceiverReceives(hash, m, s, message, true, true).store;
  }

  lemma SoundWithoutQueue(hash: Hash, m: Manifest, s: State)
    requires Sound(hash, m, s) && Completed(hash, m, s.store)
    ensures Sound(hash, m, s.(queued := false))
  {
    hide SessionInStep, Delivered;
  }

  lemma ReceiveFollows(hash: Hash, own: Manifest, peers: Manifest, p: Peer, received: Tagged, policyAllows: bool,
                       permitFree: bool)
    requires Separate(peers) && PeerSound(hash, peers, p) && own.id != peers.id && Awaits(p.work)
    requires received.message.Offer? ==> received.message.manifest == peers
    ensures var (p', sent) := Receive(hash, own, p, received, policyAllows, permitFree);
            Follows(hash, own, peers, p, p', sent, received.message.Ack? && received.id == own.id)
  {
    hide PeerSound, Follows, Enter, AfterReceiving, ReceiverReceives, SenderReceives, Separate, C.OutboundWins;
    var (p', sent) := Receive(hash, own, p, received, policyAllows, permitFree);
    var acked := received.message.Ack? && received.id == own.id;
    AckedOrNot(hash, own, peers, p, p', sent, acked);
    NothingFollows(hash, own, peers, p);
    EnterFollows(hash, own, peers, p, false);
    EnterFollows(hash, own, peers, p, true);
    match p.work
    case Idle =>
      if !received.message.Offer? || !policyAllows || !permitFree {
        SendingFollows(hash, own, peers, p, p', sent, acked);
      }
    case Sending(phase) =>
      AnswerSends(own, Outgoing(p, phase), received.message);
      if !received.message.Offer? || !phase.Offering? || !policyAllows || C.OutboundWins(own, peers) {
        SendingFollows(hash, own, peers, p, p', sent, acked);
      }
    case Accepting(receiver, collided) =>
      if receiver.Listening? {
      } else if received.message.Offer? {
        RefusalFollows(hash, own, peers, p, Tagged(received.message.manifest.id, Reject), acked);
      } else if received.id == receiver.session.manifest.id {
        SessionFollows(hash, own, peers, p, received);
      }
  }

  lemma AckedOrNot(hash: Hash, own: Manifest, peers: Manifest, p: Peer, p': Peer, sent: seq<Tagged>, acked: bool)
    ensures Follows(hash, own, peers, p, p', sent, false) ==> Follows(hash, own, peers, p, p', sent, acked)
  {
    hide PeerSound, SentSound, Completed;
  }

  lemma RefusalFollows(hash: Hash, own: Manifest, peers: Manifest, p: Peer, t: Tagged, acked: bool)
    requires PeerSound(hash, peers, p) && t.message == Reject
    ensures Follows(hash, own, peers, p, p, [t], acked)
  {
    hide PeerSound, Completed;
  }

  lemma TimeOutFollows(hash: Hash, own: Manifest, peers: Manifest, p: Peer)
    requires PeerSound(hash, peers, p)
    ensures var (p', sent) := TimeOut(p); Follows(hash, own, peers, p, p', sent, false)
  {
    hide Follows, PeerSound;
    NothingFollows(hash, own, peers, p);
    var (p', sent) := TimeOut(p);
    if !p'.work.Accepting? {
      SendingFollows(hash, own, peers, p, p', sent, false);
    }
  }

  // ---------------------------------------------------------------- every run

  /** A step of the left peer that takes at most the head of its messages. */
  lemma FollowedSound(hash: Hash, own: Manifest, peers: Manifest, s: Duplex, p': Peer, sent: seq<Tagged>,
                      rest: seq<Tagged>, acked: bool)
    requires BothSound(hash, own, peers, s) && Follows(hash, own, peers, s.left, p', sent, acked)
    requires forall t :: t in rest ==> t in s.toLeft
    requires acked ==> Completed(hash, own, s.right.store)
    ensures BothSound(hash, own, peers, s.(left := p', toLeft := rest, toRight := s.toRight + sent))
  {
    hide PeerSound, Completed;
  }

  lemma TakenSound(hash: Hash, own: Manifest, peers: Manifest, s: Duplex)
    requires BothSound(hash, own, peers, s) && s.toLeft != []
    ensures s.toLeft[0].message.Offer? ==> s.toLeft[0].message.manifest == peers
    ensures s.toLeft[0].message.Ack? && s.toLeft[0].id == own.id ==> Completed(hash, own, s.right.store)
    ensures PeerSound(hash, peers, s.left)
  {
    hide PeerSound, Completed;
    assert s.toLeft[0] in s.toLeft;
  }

  lemma DroppedSound(hash: Hash, own: Manifest, peers: Manifest, s: Duplex, rest: seq<Tagged>)
    requires BothSound(hash, own, peers, s) && forall t :: t in rest ==> t in s.toLeft
    ensures BothSound(hash, own, peers, s.(toLeft := rest))
  {
    hide PeerSound, Completed;
  }

  lemma DisconnectedSound(hash: Hash, own: Manifest, peers: Manifest, s: Duplex)
    requires BothSound(hash, own, peers, s)
    ensures BothSound(hash, own, peers, Disconnected(s))
  {
    hide SessionInStep, Delivered;
  }

  lemma TornSound(hash: Hash, own: Manifest, peers: Manifest, s: Duplex, torn: Store)
    requires BothSound(hash, own, peers, s) && MayTearInto(hash, peers, s.left.store, torn)
    ensures var t := Disconnected(s); BothSound(hash, own, peers, t.(left := t.left.(store := torn)))
  {
    hide SessionInStep, Delivered;
  }

  lemma SourcesSound(hash: Hash, own: Manifest, peers: Manifest, s: Duplex, sources: seq<Option<Bytes>>)
    requires BothSound(hash, own, peers, s)
    ensures BothSound(hash, own, peers, s.(left := s.left.(sources := sources)))
  {
    hide SessionInStep, Delivered;
  }

  lemma LeftStepSound(hash: Hash, own: Manifest, peers: Manifest, s: Duplex, a: Action)
    requires Separate(own) && Separate(peers) && own.id != peers.id && BothSound(hash, own, peers, s)
    ensures BothSound(hash, own, peers, LeftStep(hash, own, peers, s, a))
  {
    hide BothSound, PeerSound, Follows, Move, Receive, TimeOut, Separate, MayTearInto, Lost, Overtaken;
    LeftSound(hash, own, peers, s);
    match a
    case Moves(_, permitFree) =>
      var (p, sent) := Move(hash, own, s.left, permitFree);
      MoveFollows(hash, own, peers, s.left, permitFree);
      FollowedSound(hash, own, peers, s, p, sent, s.toLeft, false);
    case Receives(_, policyAllows, permitFree) =>
      if s.toLeft != [] && Awaits(s.left.work) {
        var (p, sent) := Receive(hash, own, s.left, s.toLeft[0], policyAllows, permitFree);
        TakenSound(hash, own, peers, s);
        ReceiveFollows(hash, own, peers, s.left, s.toLeft[0], policyAllows, permitFree);
        assert forall t :: t in s.toLeft[1..] ==> t in s.toLeft;
        var acked := s.toLeft[0].message.Ack? && s.toLeft[0].id == own.id;
        FollowedSound(hash, own, peers, s, p, sent, s.toLeft[1..], acked);
      }
    case TimesOut(_) =>
      var (p, sent) := TimeOut(s.left);
      TimeOutFollows(hash, own, peers, s.left);
      FollowedSound(hash, own, peers, s, p, sent, s.toLeft, false);
    case MessageLost(_, place) => DroppedSound(hash, own, peers, s, Lost(s.toLeft, place));
    case MessageOvertakes(_, place) => DroppedSound(hash, own, peers, s, Overtaken(s.toLeft, place));
    case Disconnect => DisconnectedSound(hash, own, peers, s);
    case SourceChanges(_, sources) => SourcesSound(hash, own, peers, s, sources);
    case CrashTearsDisk(_, torn) =>
      if MayTearInto(hash, peers, s.left.store, torn) {
        TornSound(hash, own, peers, s, torn);
      }
  }

  lemma LeftSound(hash: Hash, own: Manifest, peers: Manifest, s: Duplex)
    requires BothSound(hash, own, peers, s)
    ensures PeerSound(hash, peers, s.left)
  {
  }

  lemma MirrorSound(hash: Hash, left: Manifest, right: Manifest, s: Duplex)
    ensures BothSound(hash, left, right, s) <==> BothSound(hash, right, left, Mirror(s))
  {
    hide HalfSound;
  }

  lemma StepSound(hash: Hash, left: Manifest, right: Manifest, s: Duplex, a: Action)
    requires Separate(left) && Separate(right) && left.id != right.id && BothSound(hash, left, right, s)
    ensures BothSound(hash, left, right, Step(hash, left, right, s, a))
  {
    hide BothSound, LeftStep, Separate;
    if a.Disconnect? {
      DisconnectedSound(hash, left, right, s);
    } else if a.side.Left? {
      LeftStepSound(hash, left, right, s, a);
    } else {
      MirrorSound(hash, left, right, s);
      LeftStepSound(hash, right, left, Mirror(s), a);
      MirrorSound(hash, right, left, LeftStep(hash, right, left, Mirror(s), a));
    }
  }

  lemma {:induction false} RunSound(hash: Hash, left: Manifest, right: Manifest, s: Duplex, actions: seq<Action>)
    requires Separate(left) && Separate(right) && left.id != right.id && BothSound(hash, left, right, s)
    ensures BothSound(hash, left, right, Run(hash, left, right, s, actions))
    decreases |actions|
  {
    hide BothSound, Step, Separate;
    if actions != [] {
      RunSound(hash, left, right, s, actions[..|actions| - 1]);
      StepSound(hash, left, right, Run(hash, left, right, s, actions[..|actions| - 1]), actions[|actions| - 1]);
    }
  }

  /**
   * Both queue records are safe at once: over every run of two peers that offer, collide, refuse, receive and send,
   * with lost and reordered messages, timeouts, disconnection, crashes and changing sources, either record goes only
   * when the other peer holds every file of it and has recorded completion.
   */
  lemma BothRecordsSafe(hash: Hash, left: Manifest, right: Manifest, leftSources: seq<Option<Bytes>>,
                        rightSources: seq<Option<Bytes>>, actions: seq<Action>)
    requires Separate(left) && Separate(right) && left.id != right.id
    ensures var s := Run(hash, left, right, Start(leftSources, rightSources), actions);
            && (!s.left.queued ==> Completed(hash, left, s.right.store))
            && (!s.right.queued ==> Completed(hash, right, s.left.store))
  {
    RunSound(hash, left, right, Start(leftSources, rightSources), actions);
    hide Run;
  }
}
