/**
 * Two machines may be joined by any number of physical links at once.  The end
 * with the lower identity decides which link carries the session, the other
 * follows, and each end holds one lease per peer until every lane of the old
 * session is gone: apps/desktop/src/peer_session.rs:77-240, 324-406, 409-500.
 *
 * Timeouts, failed sends and failed receives are steps that may happen at any time.
 */
module SessionArbitration {

  datatype Decision = Accept | Reject | AcceptAck | RejectAck

  /** `Low` is the authority, `High` the follower. */
  datatype Side = Low | High

  datatype Router = Routing | Draining | Retaining

  /**
   * One end of one link.  The lease is owned from the moment the decision is made: while it is being sent
   * (`left` says whether it has reached the other end), while the answer is awaited, while a link that
   * failed is being closed, and while the session lives.
   */
  datatype Phase =
    | Fresh
    | Sending(left: bool)
    | AwaitingAck
    | Closing
    | FannedOut(router: Router)
    | Finished

  /**
   * `lanes` are the lane handles not yet dropped, `queued` the completion signals
   * in the bounded channel, `counted` those the monitor has taken.
   */
  datatype End = End(phase: Phase, closed: bool, inbox: seq<Decision>, lanes: set<nat>, queued: nat, counted: nat,
                     lanesDone: bool)

  datatype Link = Link(low: End, high: End)

  /** `activeLow` says whether the low end's arbiter has the peer in its active set. */
  datatype State = State(activeLow: bool, activeHigh: bool, links: seq<Link>)

  /** Whether a refusal reaches the other end. */
  datatype Refusal = Delivered | Lost

  /** Steps of a session that has fanned out. */
  datatype SessionOp =
    | LaneDrops(lane: nat)
    | MonitorCounts
    | MonitorCloses
    | RouterStops(closing: bool)
    | DrainTimesOut

  datatype LinkOp =
    | AuthorityDecides(refusal: Refusal)
    | FollowerReceives(refusal: Refusal)
    | DecisionLeaves(side: Side)
    | SendReturns(side: Side, ok: bool)
    | AuthorityReceives
    | GivesUp(side: Side)
    | LinkCloses(side: Side)
    | InSession(side: Side, op: SessionOp)
    | LeaseReleased(side: Side)

  datatype Action = Dial | On(link: nat, op: LinkOp)

  function FreshEnd(): End {
    End(Fresh, false, [], {}, 0, 0, false)
  }

  function EndOf(l: Link, side: Side): End {
    if side.Low? then l.low else l.high
  }

  function WithEnd(l: Link, side: Side, e: End): Link {
    if side.Low? then l.(low := e) else l.(high := e)
  }

  function Other(side: Side): Side {
    if side.Low? then High else Low
  }

  predicate HoldsLease(e: End) {
    e.phase.Sending? || e.phase.AwaitingAck? || e.phase.Closing? || e.phase.FannedOut?
  }

  /** A decision that leaves reaches the other end's inbox. */
  function Transmit(l: Link, from: Side, d: Decision): Link {
    var peer := EndOf(l, Other(from));
    WithEnd(l, Other(from), peer.(inbox := peer.inbox + [d]))
  }

  function Refuse(l: Link, from: Side, d: Decision, refusal: Refusal): Link {
    var closed := WithEnd(l, from, Closed(EndOf(l, from)));
    if refusal.Lost? then closed else Transmit(closed, from, d)
  }

  function Closed(e: End): End {
    e.(phase := Finished, closed := true)
  }

  function Lanes(count: nat): (lanes: set<nat>)
    ensures |lanes| == count
    ensures forall lane: nat :: lane in lanes <==> lane < count
  {
    if count == 0 then {} else Lanes(count - 1) + {count - 1}
  }

  function FanOut(e: End, laneCount: nat): End {
    e.(phase := FannedOut(Routing), lanes := Lanes(laneCount), queued := 0, counted := 0, lanesDone := false)
  }

  /** The monitor may close once it has counted every lane, or the channel is drained and all its senders are gone. */
  predicate MonitorMayClose(e: End, laneCount: nat) {
    e.phase.FannedOut? && !e.lanesDone && (e.counted >= laneCount || (e.lanes == {} && e.queued == 0))
  }

  /** One link with the active flags of the two arbiters. */
  datatype Site = Site(link: Link, activeLow: bool, activeHigh: bool)

  function Released(v: Site, side: Side, e: End): Site {
    if side.Low? then Site(WithEnd(v.link, side, e), false, v.activeHigh)
      else Site(WithEnd(v.link, side, e), v.activeLow, false)
  }

  function Changed(v: Site, side: Side, e: End): Site {
    v.(link := WithEnd(v.link, side, e))
  }

  /** Take the lease and start sending; from here on the peer is refused on every other link. */
  function Taken(v: Site, side: Side, e: End): Site {
    if side.Low? then Site(WithEnd(v.link, side, e), true, v.activeHigh)
      else Site(WithEnd(v.link, side, e), v.activeLow, true)
  }

  /** The authority takes the lease if it can and sends Accept; otherwise it refuses and closes the link. */
  function AuthorityDecision(v: Site, refusal: Refusal): Site {
    var e := v.link.low;
    if !e.phase.Fresh? then v
    else if v.activeLow then v.(link := Refuse(v.link, Low, Reject, refusal))
    else Taken(v, Low, e.(phase := Sending(false)))
  }

  /** The follower never elects: it answers the authority's decision on the link it arrived on. */
  function FollowerReply(v: Site, refusal: Refusal): Site {
    var e := v.link.high;
    if !e.phase.Fresh? || e.inbox == [] then v
    else
      var e' := e.(inbox := e.inbox[1..]);
      if !e.inbox[0].Accept? then Changed(v, High, Closed(e'))
      else if v.activeHigh then v.(link := Refuse(WithEnd(v.link, High, e'), High, RejectAck, refusal))
      else Taken(v, High, e'.(phase := Sending(false)))
  }

  /** The decision being sent reaches the other end, whatever the send then returns. */
  function DecisionDelivery(v: Site, side: Side): Site {
    var e := EndOf(v.link, side);
    if e.phase != Sending(false) then v
    else v.(link := Transmit(WithEnd(v.link, side, e.(phase := Sending(true))), side, if side.Low? then Accept
      else AcceptAck))
  }

  /** The send returns: the authority waits for the answer, the follower fans out, and a failure closes the link. */
  function SendOutcome(v: Site, laneCount: nat, side: Side, ok: bool): Site {
    var e := EndOf(v.link, side);
    if !e.phase.Sending? || (ok && !e.phase.left) then v
    else if !ok then Changed(v, side, e.(phase := Closing))
    else Changed(v, side, if side.Low? then e.(phase := AwaitingAck) else FanOut(e, laneCount))
  }

  function AuthorityReply(v: Site, laneCount: nat): Site {
    var e := v.link.low;
    if !e.phase.AwaitingAck? || e.inbox == [] then v
    else
      var e' := e.(inbox := e.inbox[1..]);
      Changed(v, Low, if e.inbox[0].AcceptAck? then FanOut(e', laneCount) else e'.(phase := Closing))
  }

  /** A timeout or receive error before the session exists. */
  function GiveUp(v: Site, side: Side): Site {
    var e := EndOf(v.link, side);
    if e.phase.AwaitingAck? then Changed(v, side, e.(phase := Closing))
    else if e.phase.Fresh? && side.High? then Changed(v, side, Closed(e))
    else v
  }

  /** The link is closed, and only then is the lease given back. */
  function CloseLink(v: Site, side: Side): Site {
    var e := EndOf(v.link, side);
    if e.phase.Closing? then Released(v, side, Closed(e)) else v
  }

  /** The steps of a session that has fanned out. */
  function SessionStep(e: End, laneCount: nat, op: SessionOp): End {
    match op
    case LaneDrops(lane) =>
      if lane !in e.lanes then e
      else e.(lanes := e.lanes - {lane}, queued := if e.queued < laneCount then e.queued + 1 else e.queued)
    case MonitorCounts =>
      if e.queued == 0 || e.counted >= laneCount then e else e.(queued := e.queued - 1, counted := e.counted + 1)
    case MonitorCloses =>
      if !MonitorMayClose(e, laneCount) then e else e.(closed := true, lanesDone := true)
    case RouterStops(closing) =>
      if e.phase != FannedOut(Routing) then e else e.(phase := FannedOut(Draining), closed := e.closed || closing)
    case DrainTimesOut =>
      if e.phase != FannedOut(Draining) then e else e.(phase := FannedOut(Retaining))
  }

  function SiteStep(v: Site, laneCount: nat, op: LinkOp): Site {
    match op
    case AuthorityDecides(refusal) => AuthorityDecision(v, refusal)
    case FollowerReceives(refusal) => FollowerReply(v, refusal)
    case DecisionLeaves(side) => DecisionDelivery(v, side)
    case SendReturns(side, ok) => SendOutcome(v, laneCount, side, ok)
    case AuthorityReceives => AuthorityReply(v, laneCount)
    case GivesUp(side) => GiveUp(v, side)
    case LinkCloses(side) => CloseLink(v, side)
    case InSession(side, sessionOp) => Changed(v, side, SessionStep(EndOf(v.link, side), laneCount, sessionOp))
    case LeaseReleased(side) =>
      var e := EndOf(v.link, side);
      if !e.phase.FannedOut? || !e.lanesDone then v else Released(v, side, e.(phase := Finished))
  }

  function Step(s: State, laneCount: nat, a: Action): State {
    if a.Dial? then s.(links := s.links + [Link(FreshEnd(), FreshEnd())])
    else if a.link >= |s.links| then s
    else
      var v := SiteStep(Site(s.links[a.link], s.activeLow, s.activeHigh), laneCount, a.op);
      State(v.activeLow, v.activeHigh, s.links[a.link := v.link])
  }

  function Run(laneCount: nat, actions: seq<Action>): State
    decreases |actions|
  {
    if actions == [] then State(false, false, [])
    else Step(Run(laneCount, actions[..|actions| - 1]), laneCount, actions[|actions| - 1])
  }

  // ---------------------------------------------------------------- one link

  /** Lane bookkeeping of one end: every lane is live, signalled, or counted. */
  predicate LanesBalanced(e: End, laneCount: nat) {
    if e.phase.Fresh? || e.phase.Sending? || e.phase.AwaitingAck? || e.phase.Closing? then e.lanes == {}
      && e.queued == 0 && e.counted == 0 && !e.lanesDone
    else
      && (e.lanesDone ==> e.closed && e.lanes == {})
      && (e.phase.FannedOut? ==> |e.lanes| + e.queued + e.counted == laneCount)
      && (e.phase.Finished? ==> e.closed && e.lanes == {} && e.queued + e.counted <= laneCount)
  }

  /** What the two ends of a link know of each other. */
  predicate LinkSound(l: Link, laneCount: nat) {
    && LanesBalanced(l.low, laneCount) && LanesBalanced(l.high, laneCount)
    && !l.high.phase.AwaitingAck?
    && (Accept in l.high.inbox ==> !l.low.phase.Fresh?)
    && (HoldsLease(l.high) ==> !l.low.phase.Fresh?)
    && (AcceptAck in l.low.inbox || l.low.phase.FannedOut? ==> HoldsLease(l.high) || l.high.closed)
  }

  lemma SessionStepBalanced(e: End, laneCount: nat, op: SessionOp)
    requires LanesBalanced(e, laneCount)
    ensures LanesBalanced(SessionStep(e, laneCount, op), laneCount)
    ensures var e' := SessionStep(e, laneCount, op);
            e'.inbox == e.inbox && (e.closed ==> e'.closed) && (HoldsLease(e) <==> HoldsLease(e'))
            && (e.phase.FannedOut? <==> e'.phase.FannedOut?) && (e.phase.Fresh? <==> e'.phase.Fresh?)
            && (e.phase.AwaitingAck? <==> e'.phase.AwaitingAck?)
            && (e.phase.Sending? <==> e'.phase.Sending?) && (e.phase.Closing? <==> e'.phase.Closing?)
  {
  }

  lemma DecisionLinkSound(v: Site, laneCount: nat, refusal: Refusal)
    requires LinkSound(v.link, laneCount)
    ensures LinkSound(AuthorityDecision(v, refusal).link, laneCount)
  {
  }

  lemma FollowerLinkSound(v: Site, laneCount: nat, refusal: Refusal)
    requires LinkSound(v.link, laneCount)
    ensures LinkSound(FollowerReply(v, refusal).link, laneCount)
  {
  }

  lemma DeliveryLinkSound(v: Site, laneCount: nat, side: Side)
    requires LinkSound(v.link, laneCount)
    ensures LinkSound(DecisionDelivery(v, side).link, laneCount)
  {
  }

  lemma OutcomeLinkSound(v: Site, laneCount: nat, side: Side, ok: bool)
    requires LinkSound(v.link, laneCount)
    ensures LinkSound(SendOutcome(v, laneCount, side, ok).link, laneCount)
  {
  }

  lemma ReplyLinkSound(v: Site, laneCount: nat)
    requires LinkSound(v.link, laneCount)
    ensures LinkSound(AuthorityReply(v, laneCount).link, laneCount)
  {
  }

  lemma EndingLinkSound(v: Site, laneCount: nat, side: Side)
    requires LinkSound(v.link, laneCount)
    ensures LinkSound(GiveUp(v, side).link, laneCount) && LinkSound(CloseLink(v, side).link, laneCount)
    ensures var e := EndOf(v.link, side);
            e.phase.FannedOut? && e.lanesDone ==> LinkSound(Released(v, side, e.(phase := Finished)).link, laneCount)
  {
  }

  lemma SessionLinkSound(v: Site, laneCount: nat, op: SessionOp, side: Side)
    requires LinkSound(v.link, laneCount)
    ensures LinkSound(Changed(v, side, SessionStep(EndOf(v.link, side), laneCount, op)).link, laneCount)
  {
    SessionStepBalanced(EndOf(v.link, side), laneCount, op);
    hide SessionStep, LanesBalanced;
  }

  lemma SiteStepLinkSound(v: Site, laneCount: nat, op: LinkOp)
    requires LinkSound(v.link, laneCount)
    ensures LinkSound(SiteStep(v, laneCount, op).link, laneCount)
  {
    hide LinkSound, AuthorityDecision, AuthorityReply, FollowerReply, DecisionDelivery, SendOutcome, GiveUp, CloseLink,
         Released, Changed, SessionStep;
    match op
    case AuthorityDecides(refusal) => DecisionLinkSound(v, laneCount, refusal);
    case FollowerReceives(refusal) => FollowerLinkSound(v, laneCount, refusal);
    case DecisionLeaves(side) => DeliveryLinkSound(v, laneCount, side);
    case SendReturns(side, ok) => OutcomeLinkSound(v, laneCount, side, ok);
    case AuthorityReceives => ReplyLinkSound(v, laneCount);
    case GivesUp(side) => EndingLinkSound(v, laneCount, side);
    case LinkCloses(side) => EndingLinkSound(v, laneCount, side);
    case InSession(side, sessionOp) => SessionLinkSound(v, laneCount, sessionOp, side);
    case LeaseReleased(side) => EndingLinkSound(v, laneCount, side);
  }

  /** How one step moves the lease of one side: unchanged, newly taken, or given back. */
  predicate LeaseMoves(before: Site, after: Site, side: Side) {
    var held, holds := HoldsLease(EndOf(before.link, side)), HoldsLease(EndOf(after.link, side));
    var was, is_ := if side.Low? then before.activeLow else before.activeHigh, if side.Low? then after.activeLow
      else after.activeHigh;
    (held == holds && was == is_) || (!held && holds && !was && is_) || (held && !holds && !is_)
  }

  lemma SiteStepMovesLease(v: Site, laneCount: nat, op: LinkOp, side: Side)
    requires LinkSound(v.link, laneCount)
    ensures LeaseMoves(v, SiteStep(v, laneCount, op), side)
  {
    hide SessionStep, AuthorityDecision, AuthorityReply, FollowerReply, DecisionDelivery, SendOutcome, GiveUp,
         CloseLink;
    match op
    case InSession(at, sessionOp) =>
      assert LanesBalanced(EndOf(v.link, at), laneCount);
      SessionStepBalanced(EndOf(v.link, at), laneCount, sessionOp);
    case LeaseReleased(_) =>
    case _ => OpeningMovesLease(v, laneCount, op, side);
  }

  lemma OpeningMovesLease(v: Site, laneCount: nat, op: LinkOp, side: Side)
    requires !op.InSession? && !op.LeaseReleased?
    ensures LeaseMoves(v, SiteStep(v, laneCount, op), side)
  {
    hide LinkSound, LanesBalanced, SessionStep, Lanes;
  }

  // ---------------------------------------------------------------- all links

  function Active(s: State, side: Side): bool {
    if side.Low? then s.activeLow else s.activeHigh
  }

  predicate HoldsOn(s: State, i: nat, side: Side) {
    i < |s.links| && HoldsLease(EndOf(s.links[i], side))
  }

  /** The active flag is set exactly while one link holds the lease, and never two do. */
  ghost predicate LeaseSound(s: State, side: Side) {
    && (forall i: nat, j: nat :: HoldsOn(s, i, side) && HoldsOn(s, j, side) ==> i == j)
    && (Active(s, side) <==> exists i: nat :: HoldsOn(s, i, side))
  }

  ghost predicate Sound(s: State, laneCount: nat) {
    && (forall i :: 0 <= i < |s.links| ==> LinkSound(s.links[i], laneCount))
    && LeaseSound(s, Low) && LeaseSound(s, High)
  }

  lemma LeaseFollowsLink(s: State, i: nat, v: Site, side: Side)
    requires LeaseSound(s, side) && i < |s.links|
    requires LeaseMoves(Site(s.links[i], s.activeLow, s.activeHigh), v, side)
    ensures LeaseSound(State(v.activeLow, v.activeHigh, s.links[i := v.link]), side)
  {
    var t := State(v.activeLow, v.activeHigh, s.links[i := v.link]);
    assert forall j: nat :: j != i ==> (HoldsOn(t, j, side) <==> HoldsOn(s, j, side));
    assert HoldsOn(s, i, side) <==> HoldsLease(EndOf(s.links[i], side));
    assert HoldsOn(t, i, side) <==> HoldsLease(EndOf(v.link, side));
    if exists j: nat :: HoldsOn(s, j, side) {
      var k: nat :| HoldsOn(s, k, side);
      assert k != i ==> HoldsOn(t, k, side);
    }
  }

  lemma DialLeaseSound(s: State, side: Side)
    requires LeaseSound(s, side)
    ensures LeaseSound(s.(links := s.links + [Link(FreshEnd(), FreshEnd())]), side)
  {
    var t := s.(links := s.links + [Link(FreshEnd(), FreshEnd())]);
    assert forall j: nat :: HoldsOn(t, j, side) <==> HoldsOn(s, j, side);
  }

  lemma StepSound(s: State, laneCount: nat, a: Action)
    requires Sound(s, laneCount) && laneCount > 0
    ensures Sound(Step(s, laneCount, a), laneCount)
  {
    hide LinkSound, LeaseSound, SiteStep, LeaseMoves;
    if a.Dial? {
      DialLeaseSound(s, Low);
      DialLeaseSound(s, High);
      FreshLinkSound(laneCount);
    } else if a.link < |s.links| {
      var v := Site(s.links[a.link], s.activeLow, s.activeHigh);
      SiteStepLinkSound(v, laneCount, a.op);
      SiteStepMovesLease(v, laneCount, a.op, Low);
      SiteStepMovesLease(v, laneCount, a.op, High);
      LeaseFollowsLink(s, a.link, SiteStep(v, laneCount, a.op), Low);
      LeaseFollowsLink(s, a.link, SiteStep(v, laneCount, a.op), High);
    }
  }

  lemma FreshLinkSound(laneCount: nat)
    ensures LinkSound(Link(FreshEnd(), FreshEnd()), laneCount)
  {
  }

  lemma {:induction false} RunSound(laneCount: nat, actions: seq<Action>)
    requires laneCount > 0
    ensures Sound(Run(laneCount, actions), laneCount)
    decreases |actions|
  {
    if actions != [] {
      RunSound(laneCount, actions[..|actions| - 1]);
      StepSound(Run(laneCount, actions[..|actions| - 1]), laneCount, actions[|actions| - 1]);
    }
  }

  // ---------------------------------------------------------------- main results

  /** An end is attached to a link while the session that fanned out on it owns the lease. */
  predicate Attached(s: State, i: nat, side: Side) {
    i < |s.links| && EndOf(s.links[i], side).phase.FannedOut?
  }

  /**
   * Over every run: when the authority is attached to one link and the follower
   * to another, the follower has already closed the authority's link.  Two ends
   * with their links open are therefore on the same one.
   */
  lemma AttachedEndsAgree(laneCount: nat, actions: seq<Action>, l: nat, k: nat)
    requires laneCount > 0
    ensures var s := Run(laneCount, actions);
            Attached(s, l, Low) && Attached(s, k, High) && !s.links[l].high.closed ==> l == k
  {
    RunSound(laneCount, actions);
    var s := Run(laneCount, actions);
    if Attached(s, l, Low) && Attached(s, k, High) && !s.links[l].high.closed {
      assert LinkSound(s.links[l], laneCount);
      assert HoldsOn(s, l, High) && HoldsOn(s, k, High);
    }
  }

  /**
   * The authority never leaves the follower on a link it forgot: while the
   * follower is attached to a link, the authority still owns its lease for that
   * very link or has closed it.
   */
  lemma FollowerIsRemembered(laneCount: nat, actions: seq<Action>, k: nat)
    requires laneCount > 0
    ensures var s := Run(laneCount, actions);
            Attached(s, k, High) ==> HoldsLease(s.links[k].low) || s.links[k].low.closed
  {
    RunSound(laneCount, actions);
    var s := Run(laneCount, actions);
    if Attached(s, k, High) {
      assert LinkSound(s.links[k], laneCount);
    }
  }

  /**
   * The lease outlives every lane: no two sessions of one end have undropped
   * lanes at once, whatever timeouts passed, and while any lane of an earlier
   * session lives the arbiter refuses the peer.
   */
  lemma LanesNeverOverlap(laneCount: nat, actions: seq<Action>, i: nat, j: nat, side: Side)
    requires laneCount > 0
    ensures var s := Run(laneCount, actions);
            i < |s.links| && j < |s.links| && EndOf(s.links[i], side).lanes != {} ==>
              && Active(s, side)
              && (EndOf(s.links[j], side).lanes != {} ==> i == j)
  {
    RunSound(laneCount, actions);
    var s := Run(laneCount, actions);
    if i < |s.links| && j < |s.links| && EndOf(s.links[i], side).lanes != {} {
      assert LinkSound(s.links[i], laneCount) && LinkSound(s.links[j], laneCount);
      assert HoldsOn(s, i, side);
      assert EndOf(s.links[j], side).lanes != {} ==> HoldsOn(s, j, side);
    }
  }

  /** The completion channel never overflows: while a lane is undropped there is room for its signal. */
  lemma CompletionAlwaysFits(laneCount: nat, actions: seq<Action>, i: nat, side: Side)
    requires laneCount > 0
    ensures var s := Run(laneCount, actions);
            i < |s.links| && EndOf(s.links[i], side).lanes != {} ==> EndOf(s.links[i], side).queued < laneCount
  {
    RunSound(laneCount, actions);
    var s := Run(laneCount, actions);
    if i < |s.links| {
      assert LinkSound(s.links[i], laneCount);
    }
  }

  /** Once all lanes of a session are dropped the monitor can count them all, so the lease is not lost. */
  lemma DrainedSessionCanClose(laneCount: nat, actions: seq<Action>, i: nat, side: Side)
    requires laneCount > 0
    ensures var s := Run(laneCount, actions);
            Attached(s, i, side) && EndOf(s.links[i], side).lanes == {} && EndOf(s.links[i], side).queued == 0 ==>
              EndOf(s.links[i], side).counted == laneCount
  {
    RunSound(laneCount, actions);
    var s := Run(laneCount, actions);
    if Attached(s, i, side) {
      assert LinkSound(s.links[i], laneCount);
    }
  }

  // ---------------------------------------------------------------- the set the leases are kept in

  /**
   * One end's record of the peers that hold a session.  The two flags of `State`
   * are the membership of one peer in the two ends' sets; leases of different peers
   * do not touch each other.
   */
  class SessionArbiter {
    var activePeers: set<nat>

    constructor ()
      ensures activePeers == {}
    {
      activePeers := {};
    }

    /** Whether the caller now holds the lease; a second caller never does. */
    method TryAcquire(peer: nat) returns (granted: bool)
      modifies this
      ensures granted <==> peer !in old(activePeers)
      ensures peer in activePeers && activePeers - {peer} == old(activePeers) - {peer}
    {
      granted := peer !in activePeers;
      activePeers := activePeers + {peer};
    }

    /** Dropping a lease frees its peer and no other. */
    method DropLease(peer: nat)
      requires peer in activePeers
      modifies this
      ensures peer !in activePeers && activePeers + {peer} == old(activePeers)
    {
      activePeers := activePeers - {peer};
    }
  }

  /** The authority's decision, made with its arbiter: the flag of the model is the peer's place in the active set. */
  method DecideAsAuthority(arbiter: SessionArbiter, peer: nat, v: Site, refusal: Refusal) returns (v': Site)
    requires v.activeLow <==> peer in arbiter.activePeers
    modifies arbiter
    ensures v' == AuthorityDecision(v, refusal) && (v'.activeLow <==> peer in arbiter.activePeers)
    ensures arbiter.activePeers - {peer} == old(arbiter.activePeers) - {peer}
  {
    var e := v.link.low;
    if !e.phase.Fresh? {
      return v;
    }
    var granted := arbiter.TryAcquire(peer);
    return if granted then Taken(v, Low, e.(phase := Sending(false)))
      else v.(link := Refuse(v.link, Low, Reject, refusal));
  }

  /** The follower's answer, with its arbiter. */
  method FollowAuthority(arbiter: SessionArbiter, peer: nat, v: Site, refusal: Refusal) returns (v': Site)
    requires v.activeHigh <==> peer in arbiter.activePeers
    modifies arbiter
    ensures v' == FollowerReply(v, refusal) && (v'.activeHigh <==> peer in arbiter.activePeers)
    ensures arbiter.activePeers - {peer} == old(arbiter.activePeers) - {peer}
  {
    var e := v.link.high;
    if !e.phase.Fresh? || e.inbox == [] {
      return v;
    }
    var e' := e.(inbox := e.inbox[1..]);
    if !e.inbox[0].Accept? {
      return Changed(v, High, Closed(e'));
    }
    var granted := arbiter.TryAcquire(peer);
    return if granted then Taken(v, High, e'.(phase := Sending(false)))
           else v.(link := Refuse(WithEnd(v.link, High, e'), High, RejectAck, refusal));
  }

  /** Closing a link that failed drops its lease. */
  method CloseAndDrop(arbiter: SessionArbiter, peer: nat, v: Site, side: Side) returns (v': Site)
    requires (if side.Low? then v.activeLow else v.activeHigh) <==> peer in arbiter.activePeers
    requires EndOf(v.link, side).phase.Closing? ==> peer in arbiter.activePeers
    modifies arbiter
    ensures v' == CloseLink(v, side) && ((if side.Low? then v'.activeLow else v'.activeHigh) <==>
                                           peer in arbiter.activePeers)
    ensures arbiter.activePeers - {peer} == old(arbiter.activePeers) - {peer}
  {
    var e := EndOf(v.link, side);
    if !e.phase.Closing? {
      return v;
    }
    arbiter.DropLease(peer);
    return Released(v, side, Closed(e));
  }
}
