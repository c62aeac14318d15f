/**
 * That sessions come about and end: an undisturbed exchange on a new link
 * attaches both ends exactly when neither holds a session, and a session whose
 * lanes are dropped gives its lease back, so that the next exchange attaches
 * again: apps/desktop/src/peer_session.rs:124-240, 324-406, 461-500.
 */
module SessionEstablishment {
  import opened SessionArbitration

  // ---------------------------------------------------------------- when a lease moves and a session begins

  predicate FannedOutAt(v: Site, side: Side) {
    EndOf(v.link, side).phase.FannedOut?
  }

  predicate TakesFirst(v: Site, side: Side, d: Decision) {
    EndOf(v.link, side).inbox != [] && EndOf(v.link, side).inbox[0] == d
  }

  /** The steps of a session leave its end in the phase it is in, and no lane comes back. */
  lemma SessionKeepsPhase(v: Site, laneCount: nat, op: LinkOp)
    ensures op.InSession? ==>
            var e := EndOf(v.link, op.side);
            var e' := SessionStep(e, laneCount, op.op);
            && e'.lanes <= e.lanes
            && (e.phase.FannedOut? <==> e'.phase.FannedOut?) && (!e.phase.FannedOut? ==> e'.phase == e.phase)
  {
    hide MonitorMayClose;
  }

  /**
   * An end fans out at exactly one step: the authority when the answer it waits
   * for is AcceptAck, the follower when sending its AcceptAck succeeds.  It then
   * has every lane and nothing counted.
   */
  lemma FansOutIff(v: Site, laneCount: nat, op: LinkOp, side: Side)
    requires !FannedOutAt(v, side)
    ensures FannedOutAt(SiteStep(v, laneCount, op), side) <==>
            (if side.Low?
             then op.AuthorityReceives? && v.link.low.phase.AwaitingAck? && TakesFirst(v, Low, AcceptAck)
             else op == SendReturns(High, true) && v.link.high.phase == Sending(true))
    ensures FannedOutAt(SiteStep(v, laneCount, op), side) ==>
            var e := EndOf(SiteStep(v, laneCount, op).link, side);
            e.lanes == Lanes(laneCount) && e.queued == 0 && e.counted == 0 && !e.lanesDone
  {
    SessionKeepsPhase(v, laneCount, op);
    hide SessionStep, Lanes;
  }

  /**
   * An end takes its lease at exactly one step: the authority when it decides on
   * a fresh link, the follower when the first message of one is Accept, and only
   * while its own arbiter has the peer free.
   */
  lemma TakesLeaseIff(v: Site, laneCount: nat, op: LinkOp, side: Side)
    requires !HoldsLease(EndOf(v.link, side))
    ensures HoldsLease(EndOf(SiteStep(v, laneCount, op).link, side)) <==>
            (if side.Low? then op.AuthorityDecides? && v.link.low.phase.Fresh? && !v.activeLow
             else op.FollowerReceives? && v.link.high.phase.Fresh? && TakesFirst(v, High, Accept) && !v.activeHigh)
  {
    SessionKeepsPhase(v, laneCount, op);
    hide SessionStep, Lanes;
  }

  /** An end gives its lease back when a failed link has been closed or its last lane is known to be gone. */
  lemma GivesLeaseBackIff(v: Site, laneCount: nat, op: LinkOp, side: Side)
    requires HoldsLease(EndOf(v.link, side))
    ensures var e := EndOf(v.link, side);
            !HoldsLease(EndOf(SiteStep(v, laneCount, op).link, side)) <==>
            || (op == LinkCloses(side) && e.phase.Closing?)
            || (op == LeaseReleased(side) && e.phase.FannedOut? && e.lanesDone)
  {
    SessionKeepsPhase(v, laneCount, op);
    hide SessionStep, Lanes;
  }

  /** An end that holds its lease starts to close its link when a send, an answer or its patience fails. */
  lemma StartsClosingIff(v: Site, laneCount: nat, op: LinkOp, side: Side)
    requires !EndOf(v.link, side).phase.Closing?
    ensures var e := EndOf(v.link, side);
            EndOf(SiteStep(v, laneCount, op).link, side).phase.Closing? <==>
            || (op == SendReturns(side, false) && e.phase.Sending?)
            || (op == GivesUp(side) && e.phase.AwaitingAck?)
            || (side.Low? && op.AuthorityReceives? && e.phase.AwaitingAck? && e.inbox != []
                && e.inbox[0] != AcceptAck)
  {
    SessionKeepsPhase(v, laneCount, op);
    hide SessionStep, Lanes;
    if op.SendReturns? || op.AuthorityReceives? || op.GivesUp? {
      hide AuthorityDecision, FollowerReply, DecisionDelivery, CloseLink, Refuse, Transmit;
    } else {
      hide SendOutcome, AuthorityReply, GiveUp;
    }
  }

  /**
   * An end gives up a link it holds no lease for exactly when it has to refuse
   * the peer, or, as the follower, is refused or waits in vain.
   */
  lemma TurnsAwayIff(v: Site, laneCount: nat, op: LinkOp, side: Side)
    requires EndOf(v.link, side).phase.Fresh?
    ensures EndOf(SiteStep(v, laneCount, op).link, side).phase.Finished? <==>
            (if side.Low? then op.AuthorityDecides? && v.activeLow
             else || op == GivesUp(High)
                  || (op.FollowerReceives? && v.link.high.inbox != []
                      && (v.link.high.inbox[0] != Accept || v.activeHigh)))
  {
    SessionKeepsPhase(v, laneCount, op);
    hide SessionStep, Lanes;
  }

  // ---------------------------------------------------------------- several steps

  function SiteSteps(v: Site, laneCount: nat, ops: seq<LinkOp>): Site
    decreases |ops|
  {
    if ops == [] then v else SiteSteps(SiteStep(v, laneCount, ops[0]), laneCount, ops[1..])
  }

  function Steps(s: State, laneCount: nat, actions: seq<Action>): State
    decreases |actions|
  {
    if actions == [] then s else Steps(Step(s, laneCount, actions[0]), laneCount, actions[1..])
  }

  function OnLink(i: nat, ops: seq<LinkOp>): (actions: seq<Action>)
    ensures |actions| == |ops|
  {
    if ops == [] then [] else [On(i, ops[0])] + OnLink(i, ops[1..])
  }

  lemma {:induction false} SiteStepsAppend(v: Site, laneCount: nat, a: seq<LinkOp>, b: seq<LinkOp>)
    ensures SiteSteps(v, laneCount, a + b) == SiteSteps(SiteSteps(v, laneCount, a), laneCount, b)
    decreases |a|
  {
    if a == [] {
      assert a + b == b;
    } else {
      assert (a + b)[1..] == a[1..] + b;
      SiteStepsAppend(SiteStep(v, laneCount, a[0]), laneCount, a[1..], b);
    }
  }

  lemma {:induction false} RunThenSteps(laneCount: nat, actions: seq<Action>, more: seq<Action>)
    ensures Run(laneCount, actions + more) == Steps(Run(laneCount, actions), laneCount, more)
    decreases |more|
  {
    if more == [] {
      assert actions + more == actions;
    } else {
      assert actions + more == (actions + [more[0]]) + more[1..];
      assert (actions + [more[0]])[..|actions|] == actions;
      RunThenSteps(laneCount, actions + [more[0]], more[1..]);
    }
  }

  function SiteOf(s: State, i: nat): Site
    requires i < |s.links|
  {
    Site(s.links[i], s.activeLow, s.activeHigh)
  }

  /** Steps on one link are steps of its site; no other link moves. */
  lemma {:induction false} StepsOnLink(s: State, laneCount: nat, i: nat, ops: seq<LinkOp>)
    requires i < |s.links|
    ensures var t := Steps(s, laneCount, OnLink(i, ops));
            && |t.links| == |s.links| && SiteOf(t, i) == SiteSteps(SiteOf(s, i), laneCount, ops)
            && forall j: nat :: j < |s.links| && j != i ==> t.links[j] == s.links[j]
    decreases |ops|
  {
    hide SiteStep;
    if ops != [] {
      var s' := Step(s, laneCount, On(i, ops[0]));
      assert OnLink(i, ops)[1..] == OnLink(i, ops[1..]);
      StepsOnLink(s', laneCount, i, ops[1..]);
    }
  }

  // ---------------------------------------------------------------- the undisturbed exchange

  const OFFER: seq<LinkOp> := [AuthorityDecides(Delivered), DecisionLeaves(Low), SendReturns(Low, true)]
  const ANSWER: seq<LinkOp> := [FollowerReceives(Delivered), DecisionLeaves(High), SendReturns(High, true)]
  const SETTLE: seq<LinkOp> := [AuthorityReceives, LinkCloses(Low)]

  lemma StepsOfTwo(v: Site, laneCount: nat, a: LinkOp, b: LinkOp)
    ensures SiteSteps(v, laneCount, [a, b]) == SiteStep(SiteStep(v, laneCount, a), laneCount, b)
  {
    hide SiteStep;
    assert [a, b][1..] == [b] && [b][1..] == [];
    assert SiteSteps(SiteStep(v, laneCount, a), laneCount, [b]) == SiteStep(SiteStep(v, laneCount, a), laneCount, b);
  }

  lemma StepsOfThree(v: Site, laneCount: nat, a: LinkOp, b: LinkOp, c: LinkOp)
    ensures SiteSteps(v, laneCount, [a, b, c]) ==
            SiteStep(SiteStep(SiteStep(v, laneCount, a), laneCount, b), laneCount, c)
  {
    hide SiteStep;
    assert [a, b, c][1..] == [b, c];
    StepsOfTwo(SiteStep(v, laneCount, a), laneCount, b, c);
  }

  lemma OfferOnFreshLink(v: Site, laneCount: nat)
    requires v.link == Link(FreshEnd(), FreshEnd())
    ensures SiteSteps(v, laneCount, OFFER) ==
            if v.activeLow then v.(link := Link(Closed(FreshEnd()), FreshEnd().(inbox := [Reject])))
            else Site(Link(FreshEnd().(phase := AwaitingAck), FreshEnd().(inbox := [Accept])), true, v.activeHigh)
  {
    StepsOfThree(v, laneCount, OFFER[0], OFFER[1], OFFER[2]);
  }

  lemma AnswerToOffer(v: Site, laneCount: nat)
    requires v.link.high == FreshEnd().(inbox := [Accept]) && v.link.low == FreshEnd().(phase := AwaitingAck)
    ensures SiteSteps(v, laneCount, ANSWER) ==
            if v.activeHigh then v.(link := Link(v.link.low.(inbox := [RejectAck]), Closed(FreshEnd())))
            else Site(Link(v.link.low.(inbox := [AcceptAck]), FanOut(FreshEnd(), laneCount)), v.activeLow, true)
  {
    hide Lanes;
    StepsOfThree(v, laneCount, ANSWER[0], ANSWER[1], ANSWER[2]);
    assert [Accept][1..] == [];
  }

  lemma AnswerToRefusal(v: Site, laneCount: nat)
    requires v.link == Link(Closed(FreshEnd()), FreshEnd().(inbox := [Reject]))
    ensures SiteSteps(v, laneCount, ANSWER + SETTLE) == v.(link := Link(Closed(FreshEnd()), Closed(FreshEnd())))
  {
    hide Lanes;
    SiteStepsAppend(v, laneCount, ANSWER, SETTLE);
    StepsOfThree(v, laneCount, ANSWER[0], ANSWER[1], ANSWER[2]);
    assert [Reject][1..] == [];
    StepsOfTwo(SiteSteps(v, laneCount, ANSWER), laneCount, SETTLE[0], SETTLE[1]);
  }

  lemma SettleAnswer(v: Site, laneCount: nat, ack: Decision)
    requires v.link.low == FreshEnd().(phase := AwaitingAck, inbox := [ack])
    ensures SiteSteps(v, laneCount, SETTLE) ==
            if ack.AcceptAck? then v.(link := v.link.(low := FanOut(FreshEnd(), laneCount)))
            else Site(v.link.(low := Closed(FreshEnd())), false, v.activeHigh)
  {
    hide Lanes;
    StepsOfTwo(v, laneCount, SETTLE[0], SETTLE[1]);
    assert [ack][1..] == [];
  }

  const EXCHANGE: seq<LinkOp> := OFFER + (ANSWER + SETTLE)

  /** Both ends with a live session on one link, nothing dropped, signalled or left unread. */
  function AttachedLink(laneCount: nat): Link {
    Link(FanOut(FreshEnd(), laneCount), FanOut(FreshEnd(), laneCount))
  }

  lemma ExchangeOnFreshLink(v: Site, laneCount: nat)
    requires v.link == Link(FreshEnd(), FreshEnd())
    ensures SiteSteps(v, laneCount, EXCHANGE) ==
            if !v.activeLow && !v.activeHigh then Site(AttachedLink(laneCount), true, true)
            else v.(link := Link(Closed(FreshEnd()), Closed(FreshEnd())))
  {
    hide Lanes, SiteStep, OFFER, ANSWER, SETTLE, FanOut;
    OfferOnFreshLink(v, laneCount);
    SiteStepsAppend(v, laneCount, OFFER, ANSWER + SETTLE);
    var offered := SiteSteps(v, laneCount, OFFER);
    if v.activeLow {
      AnswerToRefusal(offered, laneCount);
    } else {
      AnswerToOffer(offered, laneCount);
      SiteStepsAppend(offered, laneCount, ANSWER, SETTLE);
      SettleAnswer(SiteSteps(offered, laneCount, ANSWER), laneCount, if v.activeHigh then RejectAck else AcceptAck);
    }
  }

  /** Dial a new link and carry out the exchange on it. */
  function Connect(s: State): seq<Action> {
    [Dial] + OnLink(|s.links|, EXCHANGE)
  }

  /**
   * Whatever happened before, connecting undisturbed attaches both ends to the
   * new link exactly when neither held a session; otherwise the new link is
   * closed at both ends and both arbiters are as they were.
   */
  lemma ConnectAttachesIff(s: State, laneCount: nat)
    ensures var t, i := Steps(s, laneCount, Connect(s)), |s.links|;
            && (Attached(t, i, Low) && Attached(t, i, High) <==> !s.activeLow && !s.activeHigh)
            && t == (if !s.activeLow && !s.activeHigh
                     then State(true, true, s.links + [AttachedLink(laneCount)])
                     else s.(links := s.links + [Link(Closed(FreshEnd()), Closed(FreshEnd()))]))
  {
    hide SiteStep, SiteSteps, EXCHANGE, FanOut;
    var i := |s.links|;
    var dialled := Step(s, laneCount, Dial);
    assert Connect(s)[1..] == OnLink(i, EXCHANGE);
    assert Steps(s, laneCount, Connect(s)) == Steps(dialled, laneCount, OnLink(i, EXCHANGE));
    StepsOnLink(dialled, laneCount, i, EXCHANGE);
    ExchangeOnFreshLink(SiteOf(dialled, i), laneCount);
    var t := Steps(s, laneCount, Connect(s));
    assert t.links == s.links + [t.links[i]];
    FannedOutIsAttached(laneCount);
  }

  lemma FannedOutIsAttached(laneCount: nat)
    ensures FanOut(FreshEnd(), laneCount).phase.FannedOut? && !Closed(FreshEnd()).phase.FannedOut?
  {
    hide Lanes;
  }

  // ---------------------------------------------------------------- the end of a session

  function DropsFrom(i: nat, n: nat): (ops: seq<SessionOp>)
    decreases n - i
  {
    if i >= n then [] else [LaneDrops(i)] + DropsFrom(i + 1, n)
  }

  function Counts(n: nat): (ops: seq<SessionOp>) {
    if n == 0 then [] else [MonitorCounts] + Counts(n - 1)
  }

  function EndSteps(e: End, laneCount: nat, ops: seq<SessionOp>): End
    decreases |ops|
  {
    if ops == [] then e else EndSteps(SessionStep(e, laneCount, ops[0]), laneCount, ops[1..])
  }

  function InSessions(side: Side, ops: seq<SessionOp>): (r: seq<LinkOp>)
    ensures |r| == |ops|
  {
    if ops == [] then [] else [InSession(side, ops[0])] + InSessions(side, ops[1..])
  }

  lemma {:induction false} EndStepsAppend(e: End, laneCount: nat, a: seq<SessionOp>, b: seq<SessionOp>)
    ensures EndSteps(e, laneCount, a + b) == EndSteps(EndSteps(e, laneCount, a), laneCount, b)
    decreases |a|
  {
    hide SessionStep;
    if a == [] {
      assert a + b == b;
    } else {
      assert (a + b)[1..] == a[1..] + b;
      EndStepsAppend(SessionStep(e, laneCount, a[0]), laneCount, a[1..], b);
    }
  }

  lemma {:induction false} StepsInSession(v: Site, laneCount: nat, side: Side, ops: seq<SessionOp>)
    ensures SiteSteps(v, laneCount, InSessions(side, ops)) ==
            Changed(v, side, EndSteps(EndOf(v.link, side), laneCount, ops))
    decreases |ops|
  {
    hide SessionStep;
    if ops == [] {
      assert Changed(v, side, EndOf(v.link, side)) == v;
    } else {
      var e' := SessionStep(EndOf(v.link, side), laneCount, ops[0]);
      var v' := SiteStep(v, laneCount, InSession(side, ops[0]));
      assert InSessions(side, ops)[1..] == InSessions(side, ops[1..]);
      StepsInSession(v', laneCount, side, ops[1..]);
      assert v' == Changed(v, side, e') && EndOf(v'.link, side) == e';
    }
  }

  /** Lane handles are those handed out. */
  predicate LanesBelow(e: End, laneCount: nat) {
    forall lane :: lane in e.lanes ==> lane < laneCount
  }

  lemma SiteStepLanesBelow(v: Site, laneCount: nat, op: LinkOp)
    requires LanesBelow(v.link.low, laneCount) && LanesBelow(v.link.high, laneCount)
    ensures var l := SiteStep(v, laneCount, op).link; LanesBelow(l.low, laneCount) && LanesBelow(l.high, laneCount)
  {
    SessionKeepsPhase(v, laneCount, op);
    hide SessionStep;
  }

  lemma FreshLanesBelow(laneCount: nat)
    ensures LanesBelow(FreshEnd(), laneCount)
  {
  }

  lemma {:induction false} RunLanesBelow(laneCount: nat, actions: seq<Action>, i: nat)
    requires laneCount > 0
    ensures var s := Run(laneCount, actions);
            i < |s.links| ==> LanesBelow(s.links[i].low, laneCount) && LanesBelow(s.links[i].high, laneCount)
    decreases |actions|
  {
    hide SiteStep, LanesBelow;
    if actions != [] {
      var before := Run(laneCount, actions[..|actions| - 1]);
      var a := actions[|actions| - 1];
      RunLanesBelow(laneCount, actions[..|actions| - 1], i);
      if a.On? && i < |before.links| {
        SiteStepLanesBelow(SiteOf(before, i), laneCount, a.op);
      }
      FreshLanesBelow(laneCount);
    }
  }

  /** Dropping every lane from `i` on leaves none, and each is signalled or already counted. */
  lemma {:induction false} DropsLeaveNoLane(e: End, laneCount: nat, i: nat)
    requires LanesBalanced(e, laneCount) && e.phase.FannedOut? && LanesBelow(e, laneCount) && i <= laneCount
    requires forall lane :: lane in e.lanes ==> i <= lane
    ensures var e' := EndSteps(e, laneCount, DropsFrom(i, laneCount));
            LanesBalanced(e', laneCount) && e'.phase == e.phase && e'.lanes == {} && e'.inbox == e.inbox
    decreases laneCount - i
  {
    hide LanesBalanced;
    if i < laneCount {
      var dropped := SessionStep(e, laneCount, LaneDrops(i));
      assert DropsFrom(i, laneCount)[1..] == DropsFrom(i + 1, laneCount);
      SessionStepBalanced(e, laneCount, LaneDrops(i));
      DropsLeaveNoLane(dropped, laneCount, i + 1);
    }
  }

  /** The monitor takes every signal. */
  lemma {:induction false} CountsTakeEverySignal(e: End, laneCount: nat, n: nat)
    requires LanesBalanced(e, laneCount) && e.phase.FannedOut? && e.queued <= n
    ensures var e' := EndSteps(e, laneCount, Counts(n));
            LanesBalanced(e', laneCount) && e'.phase == e.phase && e'.lanes == e.lanes && e'.queued == 0
            && e'.inbox == e.inbox
    decreases n
  {
    if n > 0 {
      assert Counts(n)[1..] == Counts(n - 1);
      SessionStepBalanced(e, laneCount, MonitorCounts);
      CountsTakeEverySignal(SessionStep(e, laneCount, MonitorCounts), laneCount, n - 1);
    }
  }

  /** Every lane of one end is dropped, counted, and the lease given back. */
  function Ending(laneCount: nat): seq<SessionOp> {
    DropsFrom(0, laneCount) + (Counts(laneCount) + [MonitorCloses])
  }

  function TearDown(laneCount: nat, side: Side): seq<LinkOp> {
    InSessions(side, Ending(laneCount)) + [LeaseReleased(side)]
  }

  lemma EndingIsDone(e: End, laneCount: nat)
    requires LanesBalanced(e, laneCount) && e.phase.FannedOut? && LanesBelow(e, laneCount)
    ensures var e' := EndSteps(e, laneCount, Ending(laneCount));
            e'.phase == e.phase && e'.lanesDone && e'.closed && e'.lanes == {} && e'.inbox == e.inbox
  {
    DropsLeaveNoLane(e, laneCount, 0);
    var dropped := EndSteps(e, laneCount, DropsFrom(0, laneCount));
    CountsTakeEverySignal(dropped, laneCount, laneCount);
    EndStepsAppend(e, laneCount, DropsFrom(0, laneCount), Counts(laneCount) + [MonitorCloses]);
    EndStepsAppend(dropped, laneCount, Counts(laneCount), [MonitorCloses]);
    var counted := EndSteps(dropped, laneCount, Counts(laneCount));
    assert [MonitorCloses][1..] == [];
    assert EndSteps(counted, laneCount, [MonitorCloses]) == SessionStep(counted, laneCount, MonitorCloses);
  }

  lemma TearDownAtSite(v: Site, laneCount: nat, side: Side)
    requires LinkSound(v.link, laneCount) && FannedOutAt(v, side) && LanesBelow(EndOf(v.link, side), laneCount)
    ensures var v' := SiteSteps(v, laneCount, TearDown(laneCount, side));
            && EndOf(v'.link, side).phase.Finished? && EndOf(v'.link, side).closed && EndOf(v'.link, side).lanes == {}
            && EndOf(v'.link, Other(side)) == EndOf(v.link, Other(side))
            && (if side.Low? then !v'.activeLow && v'.activeHigh == v.activeHigh
                else !v'.activeHigh && v'.activeLow == v.activeLow)
  {
    EndingIsDone(EndOf(v.link, side), laneCount);
    hide LinkSound, LanesBelow, EndSteps, Ending, SessionStep;
    StepsInSession(v, laneCount, side, Ending(laneCount));
    SiteStepsAppend(v, laneCount, InSessions(side, Ending(laneCount)), [LeaseReleased(side)]);
    var ended := SiteSteps(v, laneCount, InSessions(side, Ending(laneCount)));
    assert [LeaseReleased(side)][1..] == [];
    assert SiteSteps(ended, laneCount, [LeaseReleased(side)]) == SiteStep(ended, laneCount, LeaseReleased(side));
  }

  /**
   * After any run, an attached end whose lanes are all dropped gives its lease
   * back and closes its link; the other end and every other link are untouched.
   */
  lemma TearDownReleases(laneCount: nat, actions: seq<Action>, i: nat, side: Side)
    requires laneCount > 0 && Attached(Run(laneCount, actions), i, side)
    ensures var s := Run(laneCount, actions);
            var t := Run(laneCount, actions + OnLink(i, TearDown(laneCount, side)));
            && !Active(t, side) && Active(t, Other(side)) == Active(s, Other(side))
            && |t.links| == |s.links| && EndOf(t.links[i], side).closed
            && EndOf(t.links[i], Other(side)) == EndOf(s.links[i], Other(side))
            && forall j: nat :: j < |s.links| && j != i ==> t.links[j] == s.links[j]
  {
    var s := Run(laneCount, actions);
    RunSound(laneCount, actions);
    RunLanesBelow(laneCount, actions, i);
    hide Run, SiteStep, TearDown, LinkSound, LanesBelow;
    RunThenSteps(laneCount, actions, OnLink(i, TearDown(laneCount, side)));
    StepsOnLink(s, laneCount, i, TearDown(laneCount, side));
    TearDownAtSite(SiteOf(s, i), laneCount, side);
  }

  /**
   * After any run that attached both ends to one link, once the lanes of both
   * ends are dropped the next undisturbed exchange attaches both ends again.
   */
  lemma ReconnectsAfterTearDown(laneCount: nat, actions: seq<Action>, i: nat)
    requires laneCount > 0
    requires var s := Run(laneCount, actions); Attached(s, i, Low) && Attached(s, i, High)
    ensures var n := |Run(laneCount, actions).links|;
            var ended := actions + OnLink(i, TearDown(laneCount, Low)) + OnLink(i, TearDown(laneCount, High));
            var t := Run(laneCount, ended + Connect(Run(laneCount, ended)));
            |t.links| == n + 1 && Attached(t, n, Low) && Attached(t, n, High) && t.links[n] == AttachedLink(laneCount)
  {
    hide Run, TearDown, SiteStep, Connect;
    TearDownReleases(laneCount, actions, i, Low);
    TearDownReleases(laneCount, actions + OnLink(i, TearDown(laneCount, Low)), i, High);
    var ended := actions + OnLink(i, TearDown(laneCount, Low)) + OnLink(i, TearDown(laneCount, High));
    RunThenSteps(laneCount, ended, Connect(Run(laneCount, ended)));
    ConnectAttachesIff(Run(laneCount, ended), laneCount);
  }
}
