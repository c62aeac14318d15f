/**
 * One receive loop feeds several runtime lanes, each registered for some
 * message kinds: apps/desktop/src/peer_session.rs:324-382, 415-475.
 */
module LaneRouting {
  import opened Wrappers

  const LANE_CAPACITY: nat := 512

  type Kind = nat

  datatype Envelope = Envelope(kind: Kind, body: seq<nat>)

  /** Events at the router: an arrival, a lane taking its next message, a lane going away, the link failing. */
  datatype Event =
    | Inbound(envelope: Envelope)
    | LaneTakes(lane: nat)
    | LaneStops(lane: nat)
    | LinkFails

  datatype Lane = Lane(queue: seq<Envelope>, taken: seq<Envelope>, stopped: bool)

  /** `routed` logs the arrivals the loop dealt with before the session closed. */
  datatype Session = Session(lanes: seq<Lane>, open: bool, routed: seq<Envelope>)

  /** The lane a kind is routed to: the last one registered for it. */
  function LaneFor(kinds: seq<seq<Kind>>, kind: Kind): (r: Option<nat>)
    ensures r.Some? ==> r.value < |kinds| && kind in kinds[r.value]
    ensures r.None? <==> forall l :: 0 <= l < |kinds| ==> kind !in kinds[l]
    ensures r.Some? ==> forall l :: r.value < l < |kinds| ==> kind !in kinds[l]
  {
    if kinds == [] then None
    else if kind in kinds[|kinds| - 1] then Some(|kinds| - 1)
    else LaneFor(kinds[..|kinds| - 1], kind)
  }

  function Step(kinds: seq<seq<Kind>>, s: Session, e: Event): Session
    requires |s.lanes| == |kinds|
  {
    match e
    case Inbound(envelope) =>
      if !s.open then s
      else (match LaneFor(kinds, envelope.kind)
            case None => s.(routed := s.routed + [envelope])
            case Some(l) =>
              var lane := s.lanes[l];
              if lane.stopped || |lane.queue| >= LANE_CAPACITY then s.(open := false)
              else s.(lanes := s.lanes[l := lane.(queue := lane.queue + [envelope])], routed := s.routed + [envelope]))
    case LaneTakes(l) =>
      if l >= |s.lanes| || s.lanes[l].queue == [] || s.lanes[l].stopped then s
      else
        var lane := s.lanes[l];
        s.(lanes := s.lanes[l := lane.(queue := lane.queue[1..], taken := lane.taken + [lane.queue[0]])])
    case LaneStops(l) =>
      if l >= |s.lanes| then s else s.(lanes := s.lanes[l := s.lanes[l].(stopped := true)])
    case LinkFails => s.(open := false)
  }

  function Run(kinds: seq<seq<Kind>>, events: seq<Event>): (s: Session)
    ensures |s.lanes| == |kinds|
    decreases |events|
  {
    if events == [] then Session(seq(|kinds|, _ => Lane([], [], false)), true, [])
    else Step(kinds, Run(kinds, events[..|events| - 1]), events[|events| - 1])
  }

  // ---------------------------------------------------------------- what a lane must see

  /** The arrivals among the events, in order. */
  function Arrivals(events: seq<Event>): seq<Envelope>
    decreases |events|
  {
    if events == [] then []
    else
      var before := Arrivals(events[..|events| - 1]);
      var e := events[|events| - 1];
      if e.Inbound? then before + [e.envelope] else before
  }

  /** The subsequence of the envelopes that belong to lane `l`. */
  function ForLane(kinds: seq<seq<Kind>>, envelopes: seq<Envelope>, l: nat): seq<Envelope>
    decreases |envelopes|
  {
    if envelopes == [] then []
    else
      var before := ForLane(kinds, envelopes[..|envelopes| - 1], l);
      var last := envelopes[|envelopes| - 1];
      if LaneFor(kinds, last.kind) == Some(l) then before + [last] else before
  }

  ghost predicate Sound(kinds: seq<seq<Kind>>, events: seq<Event>, s: Session) {
    && |s.lanes| == |kinds|
    && (forall l :: 0 <= l < |kinds| ==>
          && s.lanes[l].taken + s.lanes[l].queue == ForLane(kinds, s.routed, l)
          && |s.lanes[l].queue| <= LANE_CAPACITY)
    && s.routed <= Arrivals(events)
    && (s.open ==> s.routed == Arrivals(events))
  }

  lemma ForLaneAppend(kinds: seq<seq<Kind>>, envelopes: seq<Envelope>, last: Envelope, l: nat)
    ensures ForLane(kinds, envelopes + [last], l) ==
            ForLane(kinds, envelopes, l) + (if LaneFor(kinds, last.kind) == Some(l) then [last] else [])
  {
    assert (envelopes + [last])[..|envelopes + [last]| - 1] == envelopes;
  }

  lemma InboundSound(kinds: seq<seq<Kind>>, events: seq<Event>, s: Session, envelope: Envelope)
    requires Sound(kinds, events, s)
    ensures Sound(kinds, events + [Inbound(envelope)], Step(kinds, s, Inbound(envelope)))
  {
    hide LaneFor, ForLane;
    var e := Inbound(envelope);
    assert (events + [e])[..|events + [e]| - 1] == events;
    assert Arrivals(events + [e]) == Arrivals(events) + [envelope];
    var t := Step(kinds, s, e);
    forall l | 0 <= l < |kinds| ensures t.lanes[l].taken + t.lanes[l].queue == ForLane(kinds, t.routed, l) {
      ForLaneAppend(kinds, s.routed, envelope, l);
      assert s.lanes[l].taken + (s.lanes[l].queue + [envelope]) == (s.lanes[l].taken + s.lanes[l].queue) + [envelope];
    }
  }

  lemma OtherEventSound(kinds: seq<seq<Kind>>, events: seq<Event>, s: Session, e: Event)
    requires Sound(kinds, events, s) && !e.Inbound?
    ensures Sound(kinds, events + [e], Step(kinds, s, e))
  {
    assert (events + [e])[..|events + [e]| - 1] == events;
    var t := Step(kinds, s, e);
    forall l | 0 <= l < |kinds| ensures t.lanes[l].taken + t.lanes[l].queue == s.lanes[l].taken + s.lanes[l].queue {
      var q := s.lanes[l].queue;
      if q != [] {
        assert (s.lanes[l].taken + [q[0]]) + q[1..] == s.lanes[l].taken + q;
      }
    }
  }

  /**
   * Over every sequence of events: what a lane has taken, followed by what waits
   * in its queue, is exactly the in-order subsequence of the arrivals of its
   * kinds up to where the session closed; no queue exceeds its capacity, and
   * while the session is open nothing that arrived is missing.
   */
  lemma {:induction false} LanesSeeTheirArrivals(kinds: seq<seq<Kind>>, events: seq<Event>)
    ensures var s := Run(kinds, events);
            && (forall l :: 0 <= l < |kinds| ==>
                  s.lanes[l].taken + s.lanes[l].queue == ForLane(kinds, s.routed, l)
                  && |s.lanes[l].queue| <= LANE_CAPACITY)
            && s.routed <= Arrivals(events)
            && (s.open ==> s.routed == Arrivals(events))
    decreases |events|
  {
    if events != [] {
      var before := events[..|events| - 1];
      var e := events[|events| - 1];
      LanesSeeTheirArrivals(kinds, before);
      assert before + [e] == events;
      if e.Inbound? {
        InboundSound(kinds, before, Run(kinds, before), e.envelope);
      } else {
        OtherEventSound(kinds, before, Run(kinds, before), e);
      }
    }
  }

  /** The lanes split the routed arrivals: with every kind registered nothing is lost and nothing reaches two lanes. */
  lemma {:induction false} LanesPartition(kinds: seq<seq<Kind>>, envelopes: seq<Envelope>, e: Envelope)
    ensures forall l: nat :: e in ForLane(kinds, envelopes, l) <==> e in envelopes && LaneFor(kinds, e.kind) == Some(l)
    decreases |envelopes|
  {
    if envelopes != [] {
      LanesPartition(kinds, envelopes[..|envelopes| - 1], e);
      assert envelopes == envelopes[..|envelopes| - 1] + [envelopes[|envelopes| - 1]];
    }
  }

  /** With distinct kinds per lane, registration order does not matter: a kind goes to the lane that lists it. */
  lemma DistinctKindsRouteToTheirLane(kinds: seq<seq<Kind>>, l: nat, kind: Kind)
    requires forall i, j :: 0 <= i < j < |kinds| ==> forall k :: k in kinds[i] ==> k !in kinds[j]
    requires l < |kinds| && kind in kinds[l]
    ensures LaneFor(kinds, kind) == Some(l)
  {
  }

  // ---------------------------------------------------------------- when a session stays open, and what a lane gets

  /** A lane is gone exactly when it has been stopped. */
  lemma {:induction false} StoppedIff(kinds: seq<seq<Kind>>, events: seq<Event>, l: nat)
    requires l < |kinds|
    ensures Run(kinds, events).lanes[l].stopped <==> LaneStops(l) in events
    decreases |events|
  {
    if events != [] {
      var before, e := events[..|events| - 1], events[|events| - 1];
      StoppedIff(kinds, before, l);
      assert events == before + [e];
    }
  }

  /** The lane that an arrival belongs to: the last to list its kind. */
  ghost predicate BelongsTo(kinds: seq<seq<Kind>>, envelope: Envelope, l: nat) {
    && l < |kinds| && envelope.kind in kinds[l]
    && forall k :: l < k < |kinds| ==> envelope.kind !in kinds[k]
  }

  /** The link failed, or an arrival found its lane gone or with 512 messages waiting. */
  ghost predicate ClosesAt(kinds: seq<seq<Kind>>, events: seq<Event>, n: nat)
    requires n < |events|
  {
    var e := events[n];
    || e.LinkFails?
    || (e.Inbound? && exists l: nat :: BelongsTo(kinds, e.envelope, l)
                                       && (LaneStops(l) in events[..n]
                                           || |Run(kinds, events[..n]).lanes[l].queue| >= 512))
  }

  lemma ArrivalClosesIff(kinds: seq<seq<Kind>>, events: seq<Event>, e: Event)
    ensures var s := Run(kinds, events);
            Step(kinds, s, e).open <==> s.open && !ClosesAt(kinds, events + [e], |events|)
  {
    var s := Run(kinds, events);
    assert (events + [e])[..|events|] == events;
    if e.Inbound? {
      var lane := LaneFor(kinds, e.envelope.kind);
      if lane.Some? {
        StoppedIff(kinds, events, lane.value);
        assert BelongsTo(kinds, e.envelope, lane.value);
      }
      forall l: nat | BelongsTo(kinds, e.envelope, l) ensures lane == Some(l) {
      }
      hide LaneFor, Run;
    }
  }

  /**
   * A session stays open exactly as long as the link holds and every arrival
   * finds its lane there with room; one that no lane is registered for closes nothing.
   */
  lemma {:induction false} OpenIff(kinds: seq<seq<Kind>>, events: seq<Event>)
    ensures Run(kinds, events).open <==> forall n: nat :: n < |events| ==> !ClosesAt(kinds, events, n)
    decreases |events|
  {
    if events != [] {
      var before, e := events[..|events| - 1], events[|events| - 1];
      assert events == before + [e];
      OpenIff(kinds, before);
      ArrivalClosesIff(kinds, before, e);
      hide Run, Step, ClosesAt;
      forall n: nat | n < |before| ensures ClosesAt(kinds, events, n) <==> ClosesAt(kinds, before, n) {
        ClosesEarlier(kinds, events, n);
      }
    }
  }

  lemma ClosesEarlier(kinds: seq<seq<Kind>>, events: seq<Event>, n: nat)
    requires n + 1 < |events|
    ensures ClosesAt(kinds, events, n) <==> ClosesAt(kinds, events[..|events| - 1], n)
  {
    hide Run;
    assert events[..|events| - 1][..n] == events[..n];
  }

  /** A lane that is still there gets the next message routed to it, whenever there is one it has not taken. */
  lemma LaneTakesNext(kinds: seq<seq<Kind>>, events: seq<Event>, l: nat)
    requires l < |kinds|
    ensures var s, t := Run(kinds, events), Run(kinds, events + [LaneTakes(l)]);
            var mine := ForLane(kinds, s.routed, l);
            && |s.lanes[l].taken| <= |mine|
            && t.lanes[l].taken == if LaneStops(l) in events || |s.lanes[l].taken| == |mine| then s.lanes[l].taken
                                   else s.lanes[l].taken + [mine[|s.lanes[l].taken|]]
  {
    LanesSeeTheirArrivals(kinds, events);
    StoppedIff(kinds, events, l);
    assert (events + [LaneTakes(l)])[..|events|] == events;
    hide ForLane;
  }
  // ---------------------------------------------------------------- the loop as written

  class LaneRouter {
    const kinds: seq<seq<Kind>>
    var routes: map<Kind, nat>
    var lanes: seq<Lane>
    var open: bool
    var routed: seq<Envelope>

    ghost predicate Valid()
      reads this
    {
      && |lanes| == |kinds|
      && forall kind :: if kind in routes then LaneFor(kinds, kind) == Some(routes[kind])
           else LaneFor(kinds, kind) == None
    }

    function View(): Session
      reads this
    {
      Session(lanes, open, routed)
    }

    constructor (kinds: seq<seq<Kind>>)
      ensures Valid() && this.kinds == kinds && View() == Run(kinds, [])
    {
      this.kinds := kinds;
      this.lanes := seq(|kinds|, _ => Lane([], [], false));
      open, routed := true, [];
      var table: map<Kind, nat> := map[];
      for l := 0 to |kinds|
        invariant forall kind ::
                    if kind in table then LaneFor(kinds[..l], kind) == Some(table[kind])
                      else LaneFor(kinds[..l], kind) == None
      {
        var registered := kinds[l];
        ghost var before := table;
        for k := 0 to |registered|
          invariant forall kind :: kind in table <==> kind in before || kind in registered[..k]
          invariant forall kind :: kind in registered[..k] ==> table[kind] == l
          invariant forall kind :: kind in before && kind !in registered[..k] ==> table[kind] == before[kind]
        {
          table := table[registered[k] := l];
          assert registered[..k + 1] == registered[..k] + [registered[k]];
        }
        assert registered[..|registered|] == registered;
        assert kinds[..l + 1][..l] == kinds[..l];
      }
      assert kinds[..|kinds|] == kinds;
      routes := table;
    }

    /** Deliver one arrival, or close the session when its lane is full or gone. */
    method RouteEnvelope(envelope: Envelope)
      requires Valid() && open
      modifies this`lanes, this`open, this`routed
      ensures Valid() && View() == Step(kinds, old(View()), Inbound(envelope))
    {
      if envelope.kind !in routes {
        routed := routed + [envelope];
        return;
      }
      var l := routes[envelope.kind];
      if lanes[l].stopped || |lanes[l].queue| >= LANE_CAPACITY {
        open := false;
        return;
      }
      lanes := lanes[l := lanes[l].(queue := lanes[l].queue + [envelope])];
      routed := routed + [envelope];
    }

    /** The receive loop: it runs until the link fails or a lane cannot take its message. */
    method RouteInbound(arrivals: seq<Envelope>) returns (handled: nat)
      requires Valid() && open
      modifies this`lanes, this`open, this`routed
      ensures Valid() && handled <= |arrivals|
      ensures View() == RunArrivals(kinds, old(View()), arrivals[..handled])
      ensures open ==> handled == |arrivals|
    {
      handled := 0;
      while handled < |arrivals| && open
        invariant Valid() && handled <= |arrivals|
        invariant View() == RunArrivals(kinds, old(View()), arrivals[..handled])
      {
        RouteEnvelope(arrivals[handled]);
        handled := handled + 1;
        assert arrivals[..handled][..|arrivals[..handled]| - 1] == arrivals[..handled - 1];
      }
    }
  }

  function RunArrivals(kinds: seq<seq<Kind>>, s: Session, arrivals: seq<Envelope>): (t: Session)
    requires |s.lanes| == |kinds|
    ensures |t.lanes| == |kinds|
    decreases |arrivals|
  {
    if arrivals == [] then s
    else Step(kinds, RunArrivals(kinds, s, arrivals[..|arrivals| - 1]), Inbound(arrivals[|arrivals| - 1]))
  }
}
