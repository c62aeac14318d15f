/**
 * What the peer is told, told from what happens at the sender alone: focus
 * follows the crossings, the emergency key, the timeouts and the topology, and
 * everything captured while focus is remote is passed on once and in order:
 * apps/desktop/src/input_session.rs:427-521, 552-833.
 */
module InputForwarding {
  import opened Wrappers
  import opened InputHandoff

  datatype Focus = Focus(edge: HandoffEdge, remote: bool)

  predicate Motion(e: InputEvent) {
    e.PointerMove? || e.RelativeMove?
  }

  /** Relative motion says nothing about a local cursor, so only pointer motion takes focus away. */
  predicate Crossing(f: Focus, w: Wait) {
    w.Captured? && w.crosses && (w.event.PointerMove? || (f.remote && w.event.RelativeMove?))
  }

  /** Whatever brings focus home when it is remote, crossings aside. */
  predicate Recalls(stop: Input, f: Focus, w: Wait) {
    || w.FocusTimeout? || w.ShutdownWake? || w.CaptureFailed?
    || (w.TopologyWake? && w.edge != f.edge)
    || (w.Captured? && w.event == Press(stop))
  }

  function FocusAfter(stop: Input, f: Focus, w: Wait): Focus {
    Focus(if w.TopologyWake? then w.edge else f.edge,
          if Recalls(stop, f, w) then false else if Crossing(f, w) then !f.remote else f.remote)
  }

  /**
   * What one wait owes a peer that has been sent `sent`: on leaving, the releases
   * of what that left down, latest first; on entering, where the pointer enters;
   * while focus stays remote, what was captured.
   */
  function Owed(stop: Input, f: Focus, w: Wait, sent: seq<InputEvent>): seq<InputEvent> {
    var stays := FocusAfter(stop, f, w).remote;
    if f.remote && !stays then Releases(TrackAll([], sent))
    else if !f.remote && stays then [PointerMove]
    else if f.remote && w.Captured? then [if Motion(w.event) then PointerMove else w.event]
    else []
  }

  predicate LastWait(w: Wait) {
    w.ShutdownWake? || w.CaptureFailed? || w.SessionDropped?
  }

  /** Everything owed over a run, `sent` included. */
  function AllOwed(stop: Input, f: Focus, waits: seq<Wait>, sent: seq<InputEvent>): seq<InputEvent>
    decreases |waits|
  {
    if waits == [] || waits[0].SessionDropped? then sent
    else
      var sent' := sent + Owed(stop, f, waits[0], sent);
      if LastWait(waits[0]) then sent' else AllOwed(stop, FocusAfter(stop, f, waits[0]), waits[1..], sent')
  }

  /** How the sends of a wait go. */
  function SendingOf(w: Wait): Sending {
    match w
    case ShutdownWake(cleanup) => cleanup
    case TopologyWake(_, sending) => sending
    case FocusTimeout(sending) => sending
    case Captured(_, _, sending) => sending
    case CaptureFailed(cleanup) => cleanup
    case _ => AllSent
  }

  ghost predicate AllGetThrough(waits: seq<Wait>) {
    forall i :: 0 <= i < |waits| ==> SendingOf(waits[i]).AllSent?
  }

  function FocusOf(s: Share): Focus {
    Focus(s.edge, s.remote)
  }

  lemma CapturedIsOwed(stop: Input, f: Forward, w: Wait)
    requires f.ended.None? && ForwardSound(f) && w.Captured?
    ensures var owed := Owed(stop, FocusOf(f.share), w, f.sent);
            var (share, routed) := Route(stop, f.share, w.event, w.crosses);
            routed == owed && FocusOf(share) == FocusAfter(stop, FocusOf(f.share), w)
  {
  }

  lemma ReleasedIsOwed(stop: Input, f: Forward, w: Wait)
    requires f.ended.None? && ForwardSound(f)
    ensures ReleaseRemote(f.share) ==
            (Local(f.share.edge), if f.share.remote then Releases(TrackAll([], f.sent)) else [])
    ensures Recalls(stop, FocusOf(f.share), w) ==>
            Owed(stop, FocusOf(f.share), w, f.sent) == ReleaseRemote(f.share).1
  {
  }

  /** One wait sends what it owes, as far as its sending gets, and moves focus; it ends the loop when either fails. */
  lemma StepSendsOwed(stop: Input, f: Forward, w: Wait)
    requires f.ended.None? && ForwardSound(f)
    ensures var g, focus := ForwardStep(stop, f, w), FocusOf(f.share);
            var owed := Owed(stop, focus, w, f.sent);
            && g.sent == (if w.SessionDropped? then f.sent else f.sent + Prefix(owed, SendingOf(w)))
            && (g.ended.Some? <==> LastWait(w) || Fails(owed, SendingOf(w)) || Drops(owed, SendingOf(w)))
            && (g.ended.None? ==> FocusOf(g.share) == FocusAfter(stop, focus, w))
  {
    hide TrackAll, Releases;
    ReleasedIsOwed(stop, f, w);
    if w.Captured? {
      CapturedIsOwed(stop, f, w);
      hide Route, Owed, FocusAfter;
    } else {
      hide Route;
    }
  }

  lemma PrefixIsWhole(events: seq<InputEvent>, sending: Sending)
    ensures Prefix(events, sending) <= events
    ensures !Fails(events, sending) && !Drops(events, sending) ==> Prefix(events, sending) == events
  {
  }

  lemma {:induction false} OwedGrows(stop: Input, f: Focus, waits: seq<Wait>, sent: seq<InputEvent>)
    ensures sent <= AllOwed(stop, f, waits, sent)
    decreases |waits|
  {
    if waits != [] && !LastWait(waits[0]) {
      OwedGrows(stop, FocusAfter(stop, f, waits[0]), waits[1..], sent + Owed(stop, f, waits[0], sent));
    }
  }

  lemma {:induction false} RunSendsOwed(stop: Input, f: Forward, waits: seq<Wait>)
    requires f.ended.None? && ForwardSound(f)
    ensures var owed := AllOwed(stop, FocusOf(f.share), waits, f.sent);
            && ForwardRun(stop, f, waits).sent <= owed
            && (AllGetThrough(waits) ==> ForwardRun(stop, f, waits).sent == owed)
    decreases |waits|
  {
    hide ForwardSound, ForwardStep, Owed, FocusAfter, Prefix, Fails, Drops;
    if waits != [] {
      var w, focus := waits[0], FocusOf(f.share);
      var g, owed := ForwardStep(stop, f, w), Owed(stop, focus, w, f.sent);
      StepSendsOwed(stop, f, w);
      PrefixIsWhole(owed, SendingOf(w));
      if AllGetThrough(waits) {
        assert SendingOf(waits[0]).AllSent?;
        AllSentIsWhole(owed);
      }
      OwedGrows(stop, FocusAfter(stop, focus, w), waits[1..], f.sent + owed);
      if g.ended.None? {
        ForwardStepSound(stop, f, w);
        assert AllGetThrough(waits) ==> AllGetThrough(waits[1..]);
        RunSendsOwed(stop, g, waits[1..]);
      } else {
        assert ForwardRun(stop, g, waits[1..]) == g;
      }
    }
  }

  lemma AllSentIsWhole(events: seq<InputEvent>)
    ensures !Fails(events, AllSent) && !Drops(events, AllSent) && Prefix(events, AllSent) == events
  {
  }

  /**
   * Over every run the peer is sent a prefix of what it is owed, and all of it
   * when the sends get through.
   */
  lemma SendsWhatIsOwed(stop: Input, edge: HandoffEdge, waits: seq<Wait>)
    ensures var sent := ForwardRun(stop, StartForward(edge), waits).sent;
            && sent <= AllOwed(stop, Focus(edge, false), waits, [])
            && (AllGetThrough(waits) ==> sent == AllOwed(stop, Focus(edge, false), waits, []))
  {
    RunSendsOwed(stop, StartForward(edge), waits);
  }

  // ---------------------------------------------------------------- what reaches the peer of what was captured

  /** Everything but releases, which are also made up when focus leaves. */
  function Plain(events: seq<InputEvent>): seq<InputEvent> {
    if events == [] then []
    else
      var e := events[|events| - 1];
      Plain(events[..|events| - 1]) + (if e.Release? then [] else [e])
  }

  /**
   * What was captured for the peer, releases aside: every press other than the
   * emergency key and every scroll or raw motion while focus was remote, and one
   * pointer position for every entry and every other motion while it was.
   */
  function CapturedFor(stop: Input, f: Focus, waits: seq<Wait>): seq<InputEvent>
    decreases |waits|
  {
    if waits == [] || LastWait(waits[0]) then []
    else
      var w, next := waits[0], FocusAfter(stop, f, waits[0]);
      (if !w.Captured? || !next.remote || w.event.Release? then []
       else [if Motion(w.event) then PointerMove else w.event])
      + CapturedFor(stop, next, waits[1..])
  }

  lemma {:induction false} PlainAppend(a: seq<InputEvent>, b: seq<InputEvent>)
    ensures Plain(a + b) == Plain(a) + Plain(b)
    decreases |b|
  {
    if b == [] {
      assert a + b == a;
    } else {
      PlainAppend(a, b[..|b| - 1]);
      assert (a + b)[..|a + b| - 1] == a + b[..|b| - 1];
    }
  }

  lemma {:induction false} ReleasesAreNotPlain(held: seq<Input>)
    ensures Plain(Releases(held)) == []
  {
    if held != [] {
      var init := held[..|held| - 1];
      ReleasesAreNotPlain(init);
      PlainAppend([Release(held[|held| - 1])], Releases(init));
      assert [Release(held[|held| - 1])][..0] == [];
    }
  }

  lemma OwedPlain(stop: Input, f: Focus, w: Wait, sent: seq<InputEvent>)
    ensures Plain(Owed(stop, f, w, sent)) ==
            if !w.Captured? || !FocusAfter(stop, f, w).remote || w.event.Release? then []
            else [if Motion(w.event) then PointerMove else w.event]
  {
    ReleasesAreNotPlain(TrackAll([], sent));
    forall e: InputEvent ensures Plain([e]) == if e.Release? then [] else [e] {
      assert [e][..0] == [];
    }
    hide TrackAll, Releases;
  }

  lemma {:induction false} AllOwedPlain(stop: Input, f: Focus, waits: seq<Wait>, sent: seq<InputEvent>)
    ensures Plain(AllOwed(stop, f, waits, sent)) == Plain(sent) + CapturedFor(stop, f, waits)
    decreases |waits|
  {
    hide Owed, FocusAfter, Plain;
    if waits != [] && !waits[0].SessionDropped? {
      var owed := Owed(stop, f, waits[0], sent);
      OwedPlain(stop, f, waits[0], sent);
      PlainAppend(sent, owed);
      if !LastWait(waits[0]) {
        AllOwedPlain(stop, FocusAfter(stop, f, waits[0]), waits[1..], sent + owed);
      }
    }
  }

  /**
   * Over every run whose sends get through, the presses, scrolls and motions the
   * peer is sent are exactly those captured for it, once each and in order.
   */
  lemma CapturedIsForwarded(stop: Input, edge: HandoffEdge, waits: seq<Wait>)
    requires AllGetThrough(waits)
    ensures Plain(ForwardRun(stop, StartForward(edge), waits).sent) == CapturedFor(stop, Focus(edge, false), waits)
  {
    hide Plain, AllOwed, CapturedFor, ForwardRun;
    SendsWhatIsOwed(stop, edge, waits);
    AllOwedPlain(stop, Focus(edge, false), waits, []);
    assert Plain([]) == [] by { NothingPlain(); }
  }

  lemma NothingPlain()
    ensures Plain([]) == []
  {
  }
}
