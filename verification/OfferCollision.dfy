/**
 * Both peers may offer a transfer at the same moment.  Each then decides, from
 * the two manifests alone, whose offer stands:
 * apps/desktop/src/file_transfer.rs:354-368, 434-446, 772-832, 992-1034, 1051-1081.
 * The model covers the exchange until one transfer is under way, for offers
 * that pass both policies.
 */
module OfferCollision {
  import opened Wrappers
  import opened TransferCheckpoint

  /** Keys are compared as byte strings of equal length, sender first: the order of the numbers they encode. */
  predicate OutboundWins(outbound: Manifest, incoming: Manifest) {
    outbound.from < incoming.from || (outbound.from == incoming.from && outbound.id < incoming.id)
  }

  /** Of two offers with different keys exactly one wins, and winning is transitive: no cycle of losers. */
  lemma CollisionOrderIsStrictTotal(a: Manifest, b: Manifest, c: Manifest)
    ensures !OutboundWins(a, a)
    ensures (a.from, a.id) != (b.from, b.id) <==> OutboundWins(a, b) != OutboundWins(b, a)
    ensures OutboundWins(a, b) && OutboundWins(b, c) ==> OutboundWins(a, c)
  {
  }

  datatype Message = Offer(manifest: Manifest) | Accept(id: TransferId) | Reject(id: TransferId)

  /**
   * `Inbound` is the receiving loop entered for the peer's offer and `Outbound`
   * the streaming that follows an Accept.  Every phase but `Idle` holds the
   * process's one transfer permit.
   */
  datatype Phase = Idle | Offering | Inbound(id: TransferId) | Outbound

  datatype Peer = Peer(own: Manifest, phase: Phase, inbox: seq<Message>)

  datatype Pair = Pair(left: Peer, right: Peer)

  function Deliver(p: Peer, message: Message): Peer {
    p.(inbox := p.inbox + [message])
  }

  /** An idle peer with a queued transfer takes the permit and offers it. */
  function StartOffer(p: Peer, other: Peer): (Peer, Peer) {
    if p.phase.Idle? then (p.(phase := Offering), Deliver(other, Offer(p.own))) else (p, other)
  }

  /** A peer takes its next message. */
  function Receive(p: Peer, other: Peer): (Peer, Peer) {
    if p.inbox == [] then (p, other)
    else
      var message := p.inbox[0];
      var q := p.(inbox := p.inbox[1..]);
      match p.phase
      case Idle =>
        (match message
         case Offer(m) => (q.(phase := Inbound(m.id)), Deliver(other, Accept(m.id)))
         case _ => (q, other))
      case Offering =>
        (match message
         case Offer(m) =>
           if OutboundWins(p.own, m) then (q, Deliver(other, Reject(m.id)))
           else (q.(phase := Inbound(m.id)), Deliver(other, Accept(m.id)))
         case Accept(id) => if id == p.own.id then (q.(phase := Outbound), other) else (q, other)
         case Reject(id) => if id == p.own.id then (q.(phase := Idle), other) else (q, other))
      case _ =>
        match message
        case Offer(m) => (q, Deliver(other, Reject(m.id)))
        case _ => (q, other)
  }

  datatype Action = LeftOffers | RightOffers | LeftReceives | RightReceives

  function Step(s: Pair, a: Action): Pair {
    match a
    case LeftOffers => var (l, r) := StartOffer(s.left, s.right); Pair(l, r)
    case RightOffers => var (r, l) := StartOffer(s.right, s.left); Pair(l, r)
    case LeftReceives => var (l, r) := Receive(s.left, s.right); Pair(l, r)
    case RightReceives => var (r, l) := Receive(s.right, s.left); Pair(l, r)
  }

  function Run(s: Pair, actions: seq<Action>): Pair
    decreases |actions|
  {
    if actions == [] then s else Step(Run(s, actions[..|actions| - 1]), actions[|actions| - 1])
  }

  function Start(a: Manifest, b: Manifest): Pair {
    Pair(Peer(a, Idle, []), Peer(b, Idle, []))
  }

  // ---------------------------------------------------------------- every interleaving

  /** The exchanges that can be under way when `w` would win a collision with `l`. */
  predicate Consistent(w: Peer, l: Peer) {
    var offerW, offerL := Offer(w.own), Offer(l.own);
    var acceptW, acceptL, rejectL := Accept(w.own.id), Accept(l.own.id), Reject(l.own.id);
    match (w.phase, l.phase)
    case (Idle, Idle) => w.inbox == [] && l.inbox == []
    case (Offering, Idle) => w.inbox == [] && l.inbox == [offerW]
    case (Idle, Offering) => w.inbox == [offerL] && l.inbox == []
    case (Offering, Offering) =>
      (w.inbox == [offerL] && l.inbox == [offerW]) || (w.inbox == [] && l.inbox == [offerW, rejectL])
    case (Offering, Inbound(id)) =>
      id == w.own.id &&
      ((w.inbox == [offerL, acceptW] && l.inbox == []) || (w.inbox == [acceptW]
                                                           && (l.inbox == [] || l.inbox == [rejectL])))
    case (Outbound, Inbound(id)) => id == w.own.id && w.inbox == [] && (l.inbox == [] || l.inbox == [rejectL])
    case (Inbound(id), Offering) => id == l.own.id && w.inbox == [] && l.inbox == [acceptL]
    case (Inbound(id), Outbound) => id == l.own.id && w.inbox == [] && l.inbox == []
    case _ => false
  }

  predicate Reachable(s: Pair) {
    && (s.left.own.id != s.right.own.id) && (s.left.own.from != s.right.own.from)
    && if OutboundWins(s.left.own, s.right.own) then Consistent(s.left, s.right) else Consistent(s.right, s.left)
  }

  lemma OfferStaysConsistent(w: Peer, l: Peer)
    requires Consistent(w, l)
    ensures var (w', l') := StartOffer(w, l); Consistent(w', l') && w'.own == w.own && l'.own == l.own
    ensures var (l', w') := StartOffer(l, w); Consistent(w', l') && w'.own == w.own && l'.own == l.own
  {
  }

  lemma WinnerReceiptStaysConsistent(w: Peer, l: Peer)
    requires Consistent(w, l) && OutboundWins(w.own, l.own) && w.own.id != l.own.id
    ensures var (w', l') := Receive(w, l); Consistent(w', l') && w'.own == w.own && l'.own == l.own
  {
    hide OutboundWins;
  }

  lemma LoserReceiptStaysConsistent(w: Peer, l: Peer)
    requires Consistent(w, l) && !OutboundWins(l.own, w.own) && w.own.id != l.own.id
    ensures var (l', w') := Receive(l, w); Consistent(w', l') && w'.own == w.own && l'.own == l.own
  {
    hide OutboundWins;
  }

  /** Every step of either peer keeps the pair consistent, whichever of them would win. */
  lemma StepStaysReachable(s: Pair, a: Action)
    requires Reachable(s)
    ensures Reachable(Step(s, a)) && Step(s, a).left.own == s.left.own && Step(s, a).right.own == s.right.own
  {
    CollisionOrderIsStrictTotal(s.left.own, s.right.own, s.left.own);
    var (w, l) := if OutboundWins(s.left.own, s.right.own) then (s.left, s.right) else (s.right, s.left);
    OfferStaysConsistent(w, l);
    WinnerReceiptStaysConsistent(w, l);
    LoserReceiptStaysConsistent(w, l);
    hide Consistent, Receive, StartOffer, OutboundWins;
  }

  lemma {:induction false} RunStaysReachable(a: Manifest, b: Manifest, actions: seq<Action>)
    requires a.id != b.id && a.from != b.from
    ensures var s := Run(Start(a, b), actions); Reachable(s) && s.left.own == a && s.right.own == b
    decreases |actions|
  {
    if actions != [] {
      RunStaysReachable(a, b, actions[..|actions| - 1]);
      StepStaysReachable(Run(Start(a, b), actions[..|actions| - 1]), actions[|actions| - 1]);
    }
  }

  /** One side is receiving exactly the other side's transfer. */
  predicate Settled(sender: Peer, receiver: Peer) {
    sender.phase == Outbound && receiver.phase == Inbound(sender.own.id)
  }

  /**
   * Over every interleaving: the two peers never both receive and never both
   * send; and once no message is in flight either nobody has offered yet, or
   * exactly one side sends and the other receives that very transfer.  In
   * particular two waiting peers with empty channels do not exist.
   */
  lemma QuiescentMeansOneTransfer(a: Manifest, b: Manifest, actions: seq<Action>)
    requires a.id != b.id && a.from != b.from
    ensures var s := Run(Start(a, b), actions);
            && !(s.left.phase.Inbound? && s.right.phase.Inbound?)
            && !(s.left.phase.Outbound? && s.right.phase.Outbound?)
            && (s.left.inbox == [] && s.right.inbox == [] ==>
                  (s.left.phase == Idle && s.right.phase == Idle) || Settled(s.left, s.right)
                  || Settled(s.right, s.left))
  {
    RunStaysReachable(a, b, actions);
  }

  /** When both have offered, the offer that wins is the one that goes ahead, whatever the interleaving. */
  lemma CollisionWinnerSends(a: Manifest, b: Manifest, before: seq<Action>, after: seq<Action>)
    requires a.id != b.id && a.from != b.from && OutboundWins(a, b)
    requires Run(Start(a, b), before).left.phase == Offering && Run(Start(a, b), before).right.phase == Offering
    ensures var s := Run(Start(a, b), before + after);
            s.left.inbox == [] && s.right.inbox == [] ==> Settled(s.left, s.right)
    decreases |after|
  {
    RunStaysReachable(a, b, before + after);
    OfferedStaysOffered(a, b, before, after);
  }

  /**
   * After a collision the winner only waits for its Accept or streams, and the loser only waits or receives the
   * winner.
   */
  lemma {:induction false} OfferedStaysOffered(a: Manifest, b: Manifest, before: seq<Action>, after: seq<Action>)
    requires a.id != b.id && a.from != b.from && OutboundWins(a, b)
    requires Run(Start(a, b), before).left.phase == Offering && Run(Start(a, b), before).right.phase == Offering
    ensures var s := Run(Start(a, b), before + after);
            (s.left.phase == Offering || s.left.phase == Outbound)
            && (s.right.phase == Offering || s.right.phase == Inbound(a.id))
            && (s.right.phase == Offering ==> s.left.phase == Offering)
    decreases |after|
  {
    hide Start, OutboundWins;
    if after == [] {
      assert before + after == before;
    } else {
      var shorter := after[..|after| - 1];
      OfferedStaysOffered(a, b, before, shorter);
      RunStaysReachable(a, b, before + shorter);
      assert (before + after)[..|before + after| - 1] == before + shorter;
      StepStaysReachable(Run(Start(a, b), before + shorter), after[|after| - 1]);
    }
  }

  /** What the exchange can still spend: unmade offers, and messages by what answering them costs. */
  function Potential(s: Pair): nat {
    Owed(s.left) + Owed(s.right) + Weight(s.left.inbox) + Weight(s.right.inbox)
  }

  function Owed(p: Peer): nat {
    match p.phase
    case Idle => 8
    case Offering => 4
    case _ => 0
  }

  function Weight(inbox: seq<Message>): nat {
    if inbox == [] then 0 else (if inbox[0].Offer? then 3 else 1) + Weight(inbox[1..])
  }

  lemma {:induction false} WeightOfDelivered(inbox: seq<Message>, message: Message)
    ensures Weight(inbox + [message]) == Weight(inbox) + (if message.Offer? then 3 else 1)
  {
    if inbox == [] {
      assert [message][1..] == [];
    } else {
      assert (inbox + [message])[1..] == inbox[1..] + [message];
      WeightOfDelivered(inbox[1..], message);
    }
  }

  lemma ReceiveSpends(p: Peer, other: Peer)
    requires p.inbox != [] && !(p.phase == Offering && p.inbox[0] == Reject(p.own.id))
    ensures var (p', other') := Receive(p, other);
            Owed(p') + Owed(other') + Weight(p'.inbox) + Weight(other'.inbox) < Owed(p) + Owed(other) + Weight(p.inbox)
                + Weight(other.inbox)
  {
    if p.inbox[0].Offer? {
      WeightOfDelivered(other.inbox, Accept(p.inbox[0].manifest.id));
      WeightOfDelivered(other.inbox, Reject(p.inbox[0].manifest.id));
    }
  }

  /** The exchange ends: every action that changes anything lowers a bounded potential. */
  lemma ExchangeTerminates(s: Pair, a: Action)
    requires Reachable(s) && Step(s, a) != s
    ensures Potential(Step(s, a)) < Potential(s)
  {
    match a
    case LeftOffers => WeightOfDelivered(s.right.inbox, Offer(s.left.own));
    case RightOffers => WeightOfDelivered(s.left.inbox, Offer(s.right.own));
    case LeftReceives => ReceiveSpends(s.left, s.right);
    case RightReceives => ReceiveSpends(s.right, s.left);
  }
}
