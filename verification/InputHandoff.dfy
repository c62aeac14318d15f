/**
 * Handing keyboard and mouse to a peer and back: the forwarding loop, held-key
 * tracking and cursor suppression of apps/desktop/src/input_session.rs:359-521,
 * 552-833, and the receiver's loop and cleanup of lines 899-987.
 *
 * The mouse geometry (crates/input/src/share.rs:92-215) is reduced to its outcome:
 * every motion comes with whether it crosses the linked edge, which moves focus
 * to the peer when focus is local and back when it is remote.
 */
module InputHandoff {
  import opened Wrappers

  datatype Input = Key(code: nat) | Button(id: nat)

  /** `Other` stands for scroll and raw motion, which are passed on untouched. */
  datatype InputEvent =
    | Press(input: Input)
    | Release(input: Input)
    | PointerMove
    | RelativeMove
    | Other

  type HandoffEdge = nat

  // ---------------------------------------------------------------- held inputs

  /** The list without the last occurrence of `i`. */
  function WithoutLast(held: seq<Input>, i: Input): seq<Input> {
    if held == [] then []
    else if held[|held| - 1] == i then held[..|held| - 1]
    else WithoutLast(held[..|held| - 1], i) + [held[|held| - 1]]
  }

  function Track(held: seq<Input>, e: InputEvent): seq<Input> {
    match e
    case Press(i) => if i in held then held else held + [i]
    case Release(i) => WithoutLast(held, i)
    case PointerMove => held
    case RelativeMove => held
    case Other => held
  }

  function TrackAll(held: seq<Input>, events: seq<InputEvent>): seq<Input> {
    if events == [] then held else Track(TrackAll(held, events[..|events| - 1]), events[|events| - 1])
  }

  /** The releases, latest press first. */
  function Releases(held: seq<Input>): (r: seq<InputEvent>)
    ensures |r| == |held|
  {
    if held == [] then [] else [Release(held[|held| - 1])] + Releases(held[..|held| - 1])
  }

  /** Whether the last press or release of `i` among the events was a press. */
  predicate Down(events: seq<InputEvent>, i: Input) {
    if events == [] then false
    else
      var e := events[|events| - 1];
      if e == Press(i) then true else if e == Release(i) then false else Down(events[..|events| - 1], i)
  }

  ghost predicate Distinct(held: seq<Input>) {
    forall j, k :: 0 <= j < k < |held| ==> held[j] != held[k]
  }

  lemma {:induction false} WithoutLastMembers(held: seq<Input>, i: Input)
    requires Distinct(held)
    ensures Distinct(WithoutLast(held, i))
    ensures forall j :: j in WithoutLast(held, i) <==> j in held && j != i
  {
    if held != [] {
      var init, last := held[..|held| - 1], held[|held| - 1];
      assert held == init + [last];
      assert last !in init by {
        assert forall k :: 0 <= k < |init| ==> init[k] == held[k] && held[k] != held[|held| - 1];
      }
      WithoutLastMembers(init, i);
      var r := WithoutLast(init, i);
      forall j, k | 0 <= j < k < |r + [last]| ensures (r + [last])[j] != (r + [last])[k] {
        assert r[j] in r;
      }
    }
  }

  /** The held list is exactly what replaying the events leaves pressed, each input once. */
  lemma {:induction false} HeldIsWhatIsDown(events: seq<InputEvent>)
    ensures Distinct(TrackAll([], events))
    ensures forall i :: i in TrackAll([], events) <==> Down(events, i)
  {
    if events != [] {
      var init, e := events[..|events| - 1], events[|events| - 1];
      HeldIsWhatIsDown(init);
      if e.Release? {
        WithoutLastMembers(TrackAll([], init), e.input);
      }
    }
  }

  lemma {:induction false} TrackAllAppend(held: seq<Input>, a: seq<InputEvent>, b: seq<InputEvent>)
    ensures TrackAll(held, a + b) == TrackAll(TrackAll(held, a), b)
  {
    if b == [] {
      assert a + b == a;
    } else {
      TrackAllAppend(held, a, b[..|b| - 1]);
      assert (a + b)[..|a + b| - 1] == a + b[..|b| - 1];
    }
  }

  /** Sending the releases of everything held leaves nothing pressed. */
  lemma {:induction false} ReleasesEmpty(held: seq<Input>)
    ensures TrackAll(held, Releases(held)) == []
  {
    if held != [] {
      var init := held[..|held| - 1];
      TrackAllAppend(held, [Releases(held)[0]], Releases(init));
      assert TrackAll(held, [Releases(held)[0]]) == init by {
        assert [Releases(held)[0]][..0] == [];
      }
      ReleasesEmpty(init);
    }
  }

  // ---------------------------------------------------------------- the sender's share

  datatype Share = Share(edge: HandoffEdge, remote: bool, held: seq<Input>)

  function Local(edge: HandoffEdge): Share {
    Share(edge, false, [])
  }

  function ReleaseRemote(s: Share): (Share, seq<InputEvent>) {
    (Local(s.edge), if s.remote then Releases(s.held) else [])
  }

  function Reconfigure(s: Share, edge: HandoffEdge): (Share, seq<InputEvent>) {
    if s.edge == edge then (s, []) else (Local(edge), ReleaseRemote(s).1)
  }

  /** Where a captured event goes; `crosses` is the geometry's verdict on a motion. */
  function Route(stop: Input, s: Share, e: InputEvent, crosses: bool): (Share, seq<InputEvent>) {
    if e == Press(stop) then ReleaseRemote(s)
    else if !s.remote then
      if e.PointerMove? && crosses then (Share(s.edge, true, []), [PointerMove]) else (s, [])
    else if e.RelativeMove? || e.PointerMove? then
      if crosses then ReleaseRemote(s) else (s, [PointerMove])
    else (s.(held := Track(s.held, e)), [e])
  }

  /** Nothing is recorded as held while focus is local. */
  predicate ShareSound(s: Share) {
    !s.remote ==> s.held == []
  }

  /** Whatever is routed keeps the record of held inputs equal to what the peer has been told. */
  lemma RouteTracks(stop: Input, s: Share, e: InputEvent, crosses: bool)
    requires ShareSound(s)
    ensures var (s', out) := Route(stop, s, e, crosses);
            ShareSound(s') && TrackAll(s.held, out) == s'.held && s'.edge == s.edge
    ensures e == Press(stop) ==> !Route(stop, s, e, crosses).0.remote
  {
    ReleasesEmpty(s.held);
    assert forall x: InputEvent :: [x][..0] == [];
    assert TrackAll(s.held, [PointerMove]) == s.held;
    assert TrackAll(s.held, [e]) == Track(s.held, e);
  }

  // ---------------------------------------------------------------- the forwarding loop

  /** How sending a batch goes: all of it, an error after `n` events, or the whole session dropped after `n`. */
  datatype Sending = AllSent | FailsAfter(n: nat) | DroppedAfter(n: nat)

  datatype Wait =
    | SpuriousWake
    | ShutdownWake(cleanup: Sending)
    | TopologyWake(edge: HandoffEdge, sending: Sending)
    | FocusTimeout(sending: Sending)
    | Captured(event: InputEvent, crosses: bool, sending: Sending)
    | CaptureFailed(cleanup: Sending)
    | SessionDropped

  datatype Ending = Stopped | CaptureError | SendError | Dropped

  /** The share, the guard's flag, whether the platform is suppressing the local cursor, and what the peer was sent. */
  datatype Forward = Forward(share: Share, guard: bool, cursorHidden: bool, sent: seq<InputEvent>,
                             ended: Option<Ending>)

  function StartForward(edge: HandoffEdge): Forward {
    Forward(Local(edge), false, false, [], None)
  }

  function Prefix(events: seq<InputEvent>, sending: Sending): seq<InputEvent> {
    match sending
    case AllSent => events
    case FailsAfter(n) => if n < |events| then events[..n] else events
    case DroppedAfter(n) => if n < |events| then events[..n] else events
  }

  predicate Fails(events: seq<InputEvent>, sending: Sending) {
    sending.FailsAfter? && sending.n < |events|
  }

  predicate Drops(events: seq<InputEvent>, sending: Sending) {
    sending.DroppedAfter? && sending.n < |events|
  }

  /** The guard tells the platform only about changes. */
  function SetSuppressed(f: Forward, suppressed: bool): Forward {
    if f.guard != suppressed then f.(guard := suppressed, cursorHidden := suppressed) else f
  }

  /** Dropping the session drops the guard, which turns suppression off if it was on. */
  function DropSession(f: Forward): Forward {
    SetSuppressed(f, false).(ended := Some(Dropped))
  }

  function ForwardStep(stop: Input, f: Forward, w: Wait): Forward {
    match w
    case SpuriousWake => f
    case SessionDropped => DropSession(f)
    case ShutdownWake(cleanup) =>
      var (share, releases) := ReleaseRemote(f.share);
      var g := f.(share := share, sent := f.sent + Prefix(releases, cleanup));
      if Drops(releases, cleanup) then DropSession(g)
      else g.(guard := false, cursorHidden := false, ended := Some(Stopped))
    case TopologyWake(edge, sending) =>
      if edge == f.share.edge then f
      else
        var (share, releases) := Reconfigure(f.share, edge);
        var g := f.(share := share, sent := f.sent + Prefix(releases, sending));
        var restored := if f.share.remote then SetSuppressed(g, false) else g;
        if Drops(releases, sending) then DropSession(g)
        else if Fails(releases, sending) then restored.(ended := Some(SendError))
        else restored
    case FocusTimeout(sending) =>
      var (share, releases) := ReleaseRemote(f.share);
      var g := f.(share := share, sent := f.sent + Prefix(releases, sending));
      if Drops(releases, sending) then DropSession(g)
      else if Fails(releases, sending) then SetSuppressed(g, false).(ended := Some(SendError))
      else if f.share.remote then SetSuppressed(g, false) else g
    case CaptureFailed(cleanup) =>
      var (share, releases) := ReleaseRemote(f.share);
      var g := f.(share := share, sent := f.sent + Prefix(releases, cleanup));
      if Drops(releases, cleanup) then DropSession(g)
      else (if f.share.remote then SetSuppressed(g, false) else g).(ended := Some(CaptureError))
    case Captured(event, crosses, sending) =>
      var (share, routed) := Route(stop, f.share, event, crosses);
      var entered := if !f.share.remote && share.remote then SetSuppressed(f, true) else f;
      var g := entered.(share := share, sent := f.sent + Prefix(routed, sending));
      if Drops(routed, sending) then DropSession(g)
      else if Fails(routed, sending) then
        (if share.remote || f.share.remote then SetSuppressed(g, false)
          else g).(share := ReleaseRemote(share).0, ended := Some(SendError))
      else if f.share.remote && !share.remote then SetSuppressed(g, false) else g
  }

  function ForwardRun(stop: Input, f: Forward, waits: seq<Wait>): Forward
    decreases waits
  {
    if waits == [] || f.ended.Some? then f else ForwardRun(stop, ForwardStep(stop, f, waits[0]), waits[1..])
  }

  /**
   * While the loop runs: the cursor is hidden exactly when focus is remote, and what is held is what the peer was
   * told.
   */
  ghost predicate ForwardSound(f: Forward) {
    if f.ended.Some? then !f.cursorHidden && !f.guard
    else f.guard == f.cursorHidden == f.share.remote && ShareSound(f.share) && TrackAll([], f.sent) == f.share.held
  }

  lemma ForwardStepSound(stop: Input, f: Forward, w: Wait)
    requires f.ended.None? && ForwardSound(f)
    ensures ForwardSound(ForwardStep(stop, f, w))
  {
    hide TrackAll, Releases, Route;
    if w.Captured? {
      CaptureStepSound(stop, f, w);
    } else {
      var released := ReleaseRemote(f.share).1;
      assert TrackAll(f.share.held, released) == [] by { ReleasesEmpty(f.share.held); }
      TrackAllAppend([], f.sent, released);
    }
  }

  lemma CaptureStepSound(stop: Input, f: Forward, w: Wait)
    requires f.ended.None? && ForwardSound(f) && w.Captured?
    ensures ForwardSound(ForwardStep(stop, f, w))
  {
    hide TrackAll, Releases, Route, ReleaseRemote;
    RouteTracks(stop, f.share, w.event, w.crosses);
    TrackAllAppend([], f.sent, Route(stop, f.share, w.event, w.crosses).1);
  }

  /** A shutdown or a capture error whose cleanup gets through leaves nothing pressed on the peer. */
  lemma CleanEndingReleasesAll(stop: Input, f: Forward, w: Wait)
    requires f.ended.None? && ForwardSound(f)
    requires w == ShutdownWake(AllSent) || w == CaptureFailed(AllSent)
    ensures ForwardStep(stop, f, w).ended.Some? && TrackAll([], ForwardStep(stop, f, w).sent) == []
  {
    ReleasesEmpty(f.share.held);
    TrackAllAppend([], f.sent, ReleaseRemote(f.share).1);
  }

  lemma {:induction false} ForwardRunSound(stop: Input, f: Forward, waits: seq<Wait>)
    requires ForwardSound(f)
    ensures ForwardSound(ForwardRun(stop, f, waits))
    decreases waits
  {
    if waits != [] && f.ended.None? {
      ForwardStepSound(stop, f, waits[0]);
      ForwardRunSound(stop, ForwardStep(stop, f, waits[0]), waits[1..]);
    }
  }

  /**
   * At every head of the forwarding loop, over every run: the local cursor is hidden exactly when focus is remote; the
   * inputs left pressed by everything sent are exactly those recorded as held, and none when focus is local.  However
   * the loop ends, dropped at any point included, the cursor is visible again.
   */
  lemma HandoffIsSafe(stop: Input, edge: HandoffEdge, waits: seq<Wait>)
    ensures var f := ForwardRun(stop, StartForward(edge), waits);
            && (f.ended.Some? ==> !f.cursorHidden)
            && (f.ended.None? ==>
                  && (f.cursorHidden <==> f.share.remote)
                  && (forall i :: Down(f.sent, i) <==> i in f.share.held)
                  && (!f.share.remote ==> forall i :: !Down(f.sent, i)))
  {
    ForwardRunSound(stop, StartForward(edge), waits);
    HeldIsWhatIsDown(ForwardRun(stop, StartForward(edge), waits).sent);
  }

  /**
   * The emergency key always brings the cursor home, unless telling the peer fails, which ends the session with it
   * home too.
   */
  lemma EmergencyStopBringsCursorHome(stop: Input, f: Forward, crosses: bool, sending: Sending)
    requires f.ended.None? && ForwardSound(f)
    ensures var f' := ForwardStep(stop, f, Captured(Press(stop), crosses, sending));
              !f'.cursorHidden && !f'.share.remote
  {
    ForwardStepSound(stop, f, Captured(Press(stop), crosses, sending));
  }

  // ---------------------------------------------------------------- the receiver

  datatype Injection = Injected | PermissionDenied | Failed

  datatype Arrival =
    | Input(event: InputEvent, result: Injection)
    | OtherKind
    | Undecodable
    | NetworkError
    | Closed
    | Shutdown
    | Spurious

  predicate Ends(a: Arrival) {
    a.Undecodable? || a.NetworkError? || a.Closed? || a.Shutdown? || (a.Input? && a.result.PermissionDenied?)
  }

  /** What the platform injected before the loop ended; a connection that goes quiet is one that closes. */
  function InjectedBy(arrivals: seq<Arrival>): seq<InputEvent> {
    if arrivals == [] || Ends(arrivals[0]) then []
    else
      (if arrivals[0].Input? && arrivals[0].result.Injected? then [arrivals[0].event] else [])
      + InjectedBy(arrivals[1..])
  }

  /** Whether the loop itself ended without an error. */
  predicate EndsWell(arrivals: seq<Arrival>) {
    if arrivals == [] then true
    else if Ends(arrivals[0]) then arrivals[0].Closed? || arrivals[0].Shutdown?
    else EndsWell(arrivals[1..])
  }

  /** Until an arrival ends the loop, exactly those the platform takes are injected, in order; after it, none is. */
  lemma {:induction false} InjectedIffTaken(arrivals: seq<Arrival>, a: Arrival)
    ensures InjectedBy(arrivals + [a]) == InjectedBy(arrivals) +
            if (forall x :: x in arrivals ==> !Ends(x)) && a.Input? && a.result == Injected then [a.event] else []
    decreases |arrivals|
  {
    if arrivals == [] {
      assert [] + [a] == [a] && [a][1..] == [];
    } else {
      assert (arrivals + [a])[1..] == arrivals[1..] + [a];
      assert arrivals == [arrivals[0]] + arrivals[1..];
      InjectedIffTaken(arrivals[1..], a);
    }
  }

  /** The loop ends well unless the first arrival that ends it is a failure. */
  lemma {:induction false} EndsWellIff(arrivals: seq<Arrival>)
    ensures EndsWell(arrivals) <==>
            forall n: nat :: n < |arrivals| && Ends(arrivals[n]) && (forall k :: 0 <= k < n ==> !Ends(arrivals[k])) ==>
              arrivals[n].Closed? || arrivals[n].Shutdown?
    decreases |arrivals|
  {
    if arrivals != [] && !Ends(arrivals[0]) {
      var rest := arrivals[1..];
      EndsWellIff(rest);
      assert forall n: nat :: n < |rest| ==> rest[n] == arrivals[n + 1];
      if !EndsWell(rest) {
        var n: nat :| n < |rest| && Ends(rest[n]) && (forall k :: 0 <= k < n ==> !Ends(rest[k]))
                      && !rest[n].Closed? && !rest[n].Shutdown?;
        forall k | 0 <= k < n + 1 ensures !Ends(arrivals[k]) {
          assert k > 0 ==> rest[k - 1] == arrivals[k];
        }
        assert Ends(arrivals[n + 1]);
      } else {
        forall n: nat | n < |arrivals| && Ends(arrivals[n]) && (forall k :: 0 <= k < n ==> !Ends(arrivals[k]))
          ensures arrivals[n].Closed? || arrivals[n].Shutdown?
        {
          assert rest[n - 1] == arrivals[n];
          forall k | 0 <= k < n - 1 ensures !Ends(rest[k]) {
            assert rest[k] == arrivals[k + 1];
          }
        }
      }
    }
  }

  lemma {:induction false} DownAppend(events: seq<InputEvent>, e: InputEvent, i: Input)
    ensures Down(events + [e], i) == if e == Press(i) then true else if e == Release(i) then false else Down(events, i)
  {
    assert (events + [e])[..|events + [e]| - 1] == events;
  }

  /** Recording an input event after the platform accepted it. */
  method TrackHeldInput(held: seq<Input>, e: InputEvent) returns (r: seq<Input>)
    ensures r == Track(held, e)
  {
    r := held;
    match e
    case Press(i) =>
      if i !in held {
        r := held + [i];
      }
    case Release(i) =>
      var k := |held|;
      assert held[..k] == held && held[k..] == [];
      assert WithoutLast(held, i) + [] == WithoutLast(held, i);
      while k > 0 && held[k - 1] != i
        invariant 0 <= k <= |held|
        invariant WithoutLast(held, i) == WithoutLast(held[..k], i) + held[k..]
      {
        assert held[..k][..k - 1] == held[..k - 1];
        assert held[k - 1..] == [held[k - 1]] + held[k..];
        k := k - 1;
      }
      if k > 0 {
        assert held[..k][..k - 1] == held[..k - 1];
        r := held[..k - 1] + held[k..];
      } else {
        assert held[..0] == [] && held[0..] == held;
      }
    case PointerMove =>
    case RelativeMove =>
    case Other =>
  }

  lemma TrackNone()
    ensures TrackAll([], []) == []
  {
  }

  lemma TrackOneMore(events: seq<InputEvent>, e: InputEvent)
    ensures TrackAll([], events + [e]) == Track(TrackAll([], events), e)
  {
    assert (events + [e])[..|events|] == events;
  }

  /** The loop goes past an arrival that does not end it, and stops at one that does. */
  lemma LoopAt(arrivals: seq<Arrival>, n: nat)
    requires n <= |arrivals|
    ensures n == |arrivals| || Ends(arrivals[n]) ==>
              InjectedBy(arrivals[n..]) == []
              && EndsWell(arrivals[n..]) == (n == |arrivals| || arrivals[n].Closed? || arrivals[n].Shutdown?)
    ensures n < |arrivals| && !Ends(arrivals[n]) ==>
              InjectedBy(arrivals[n..]) ==
              (if arrivals[n].Input? && arrivals[n].result.Injected? then [arrivals[n].event] else [])
              + InjectedBy(arrivals[n + 1..])
              && EndsWell(arrivals[n..]) == EndsWell(arrivals[n + 1..])
  {
    if n < |arrivals| {
      assert arrivals[n..][1..] == arrivals[n + 1..];
    }
  }

  /** The receiving loop: inject what arrives and record what it holds down. */
  method InjectArrivals(arrivals: seq<Arrival>) returns (injected: seq<InputEvent>, held: seq<Input>, ok: bool)
    ensures injected == InjectedBy(arrivals) && held == TrackAll([], injected) && ok == EndsWell(arrivals)
  {
    hide Track, TrackAll, InjectedBy, EndsWell;
    injected, held := [], [];
    var n := 0;
    TrackNone();
    assert arrivals[0..] == arrivals;
    while n < |arrivals| && !Ends(arrivals[n])
      invariant 0 <= n <= |arrivals|
      invariant held == TrackAll([], injected)
      invariant InjectedBy(arrivals) == injected + InjectedBy(arrivals[n..])
      invariant EndsWell(arrivals) == EndsWell(arrivals[n..])
    {
      LoopAt(arrivals, n);
      if arrivals[n].Input? && arrivals[n].result.Injected? {
        TrackOneMore(injected, arrivals[n].event);
        held := TrackHeldInput(held, arrivals[n].event);
        injected := injected + [arrivals[n].event];
      }
      n := n + 1;
    }
    LoopAt(arrivals, n);
    ok := n == |arrivals| || arrivals[n].Closed? || arrivals[n].Shutdown?;
  }

  /** The cleanup: release what is held, latest first; the platform does not carry out the releases of `refused`. */
  method ReleaseHeld(before: seq<InputEvent>, held: seq<Input>, refused: set<Input>)
      returns (injected: seq<InputEvent>, failed: bool)
    requires Distinct(held) && forall i :: i in held <==> Down(before, i)
    ensures forall i :: Down(injected, i) <==> Down(before, i) && i in refused
    ensures failed <==> exists i :: Down(injected, i)
  {
    injected, failed := before, false;
    var k := |held|;
    while k > 0
      invariant 0 <= k <= |held|
      invariant forall i :: Down(injected, i) <==> Down(before, i) && (i in refused || i in held[..k])
      invariant failed ==> exists i :: i in held && i in refused
      invariant forall i :: i in held[k..] && i in refused ==> failed
    {
      k := k - 1;
      assert held[..k + 1] == held[..k] + [held[k]];
      assert held[k..] == [held[k]] + held[k + 1..];
      assert held[k] !in held[..k];
      if held[k] in refused {
        failed := true;
      } else {
        forall i ensures Down(injected + [Release(held[k])], i) == (if i == held[k] then false else Down(injected, i)) {
          DownAppend(injected, Release(held[k]), i);
        }
        injected := injected + [Release(held[k])];
      }
    }
    assert held[0..] == held;
  }

  /**
   * The receiver's session: inject what arrives, and however that ends, release what is held.
   * At the end exactly the held inputs whose release the platform refused are still down, and an
   * error is reported exactly when there is one or the loop failed.
   */
  method InjectUntilShutdown(arrivals: seq<Arrival>, refused: set<Input>) returns (injected: seq<InputEvent>, ok: bool)
    ensures forall i :: Down(injected, i) <==> Down(InjectedBy(arrivals), i) && i in refused
    ensures ok <==> EndsWell(arrivals) && forall i :: !Down(injected, i)
  {
    var before, held, terminal := InjectArrivals(arrivals);
    HeldIsWhatIsDown(before);
    var after, failed := ReleaseHeld(before, held, refused);
    injected, ok := after, terminal && !failed;
  }

  // ---------------------------------------------------------------- the objects the loop updates

  class LinkedScreenInputShare {
    const stop: Input
    var edge: HandoffEdge
    var remote: bool
    var held: seq<Input>

    function View(): Share
      reads this
    {
      Share(edge, remote, held)
    }

    constructor (edge: HandoffEdge, stop: Input)
      ensures View() == Local(edge) && this.stop == stop
    {
      this.edge, this.stop, remote, held := edge, stop, false, [];
    }

    method ReleaseRemoteEvents() returns (releases: seq<InputEvent>)
      modifies this
      ensures (View(), releases) == ReleaseRemote(old(View()))
    {
      releases := [];
      if remote {
        remote := false;
        releases := DrainHeldReleases();
      } else {
        held := [];
      }
    }

    /** Take everything held, latest first. */
    method DrainHeldReleases() returns (releases: seq<InputEvent>)
      modifies this`held
      ensures held == [] && releases == Releases(old(held))
    {
      releases := [];
      ghost var all := Releases(held);
      while held != []
        invariant releases + Releases(held) == all
        decreases |held|
      {
        releases := releases + [Release(held[|held| - 1])];
        held := held[..|held| - 1];
      }
    }

    method ReconfigureEdge(next: HandoffEdge) returns (releases: seq<InputEvent>)
      modifies this
      ensures (View(), releases) == Reconfigure(old(View()), next)
    {
      if edge == next {
        return [];
      }
      releases := ReleaseRemoteEvents();
      edge, remote, held := next, false, [];
    }

    method RouteEvents(e: InputEvent, crosses: bool) returns (out: seq<InputEvent>)
      modifies this
      ensures (View(), out) == Route(stop, old(View()), e, crosses)
    {
      if e == Press(stop) {
        out := ReleaseRemoteEvents();
        return;
      }
      if !remote {
        if !e.PointerMove? || !crosses {
          return [];
        }
        remote, held := true, [];
        return [PointerMove];
      }
      if e.RelativeMove? || e.PointerMove? {
        if !crosses {
          return [PointerMove];
        }
        out := ReleaseRemoteEvents();
        return;
      }
      held := TrackHeldInput(held, e);
      return [e];
    }
  }

  class SuppressionGuard {
    var suppressed: bool
    /** What the platform was last told. */
    var cursorHidden: bool

    constructor ()
      ensures !suppressed && !cursorHidden
    {
      suppressed, cursorHidden := false, false;
    }

    method Set(s: bool)
      modifies this
      ensures suppressed == s
      ensures cursorHidden == if old(suppressed) != s then s else old(cursorHidden)
    {
      if suppressed != s {
        cursorHidden := s;
        suppressed := s;
      }
    }

    method Restore()
      modifies this
      ensures !suppressed && !cursorHidden
    {
      cursorHidden := false;
      suppressed := false;
    }
  }

  /** The loop as the program runs it, until it ends or `waits` do. */
  method ForwardUntilShutdown(stop: Input, edge: HandoffEdge, waits: seq<Wait>) returns (f: Forward)
    ensures f == ForwardRun(stop, StartForward(edge), waits)
    ensures ForwardSound(f)
  {
    var share := new LinkedScreenInputShare(edge, stop);
    var suppression := new SuppressionGuard();
    var sent: seq<InputEvent> := [];
    var ended: Option<Ending> := None;
    var n := 0;
    assert waits[0..] == waits;
    while n < |waits| && ended.None?
      invariant 0 <= n <= |waits|
      invariant fresh(share) && fresh(suppression) && share.stop == stop
      invariant var now := Forward(share.View(), suppression.suppressed, suppression.cursorHidden, sent, ended);
                ForwardRun(stop, StartForward(edge), waits) == ForwardRun(stop, now, waits[n..])
      decreases |waits| - n
    {
      ghost var before := Forward(share.View(), suppression.suppressed, suppression.cursorHidden, sent, ended);
      sent, ended := HandleWait(share, suppression, sent, waits[n]);
      assert Forward(share.View(), suppression.suppressed, suppression.cursorHidden, sent, ended)
             == ForwardStep(stop, before, waits[n]);
      assert waits[n..][0] == waits[n] && waits[n..][1..] == waits[n + 1..];
      n := n + 1;
    }
    f := Forward(share.View(), suppression.suppressed, suppression.cursorHidden, sent, ended);
    ForwardRunSound(stop, StartForward(edge), waits);
  }

  /** One captured event: route it, hide or show the cursor around the send. */
  method HandleCaptured(share: LinkedScreenInputShare, suppression: SuppressionGuard, sent: seq<InputEvent>, w: Wait)
    returns (sent': seq<InputEvent>, ended: Option<Ending>)
    requires w.Captured?
    modifies share, suppression
    ensures Forward(share.View(), suppression.suppressed, suppression.cursorHidden, sent', ended) ==
            ForwardStep(share.stop,
                        old(Forward(share.View(), suppression.suppressed, suppression.cursorHidden, sent, None)), w)
  {
    hide Route, Releases;
    sent', ended := sent, None;
    var wasRemote := share.remote;
    var Captured(event, crosses, sending) := w;
    var routed := share.RouteEvents(event, crosses);
    var isRemote := share.remote;
    if !wasRemote && isRemote {
      suppression.Set(true);
    }
    sent' := sent + Prefix(routed, sending);
    if Drops(routed, sending) {
      suppression.Set(false);
      ended := Some(Dropped);
      return;
    }
    if Fails(routed, sending) {
      var _ := share.ReleaseRemoteEvents();
      if isRemote || wasRemote {
        suppression.Set(false);
      }
      ended := Some(SendError);
      return;
    }
    if wasRemote && !isRemote {
      suppression.Set(false);
    }
  }

  /** One turn of the loop. */
  method HandleWait(share: LinkedScreenInputShare, suppression: SuppressionGuard, sent: seq<InputEvent>, w: Wait)
    returns (sent': seq<InputEvent>, ended: Option<Ending>)
    modifies share, suppression
    ensures Forward(share.View(), suppression.suppressed, suppression.cursorHidden, sent', ended) ==
            ForwardStep(share.stop,
                        old(Forward(share.View(), suppression.suppressed, suppression.cursorHidden, sent, None)), w)
  {
    hide Route, Releases;
    sent', ended := sent, None;
    var wasRemote := share.remote;
    match w
    case SpuriousWake =>
    case SessionDropped =>
      suppression.Set(false);
      ended := Some(Dropped);
    case ShutdownWake(cleanup) =>
      var releases := share.ReleaseRemoteEvents();
      sent' := sent + Prefix(releases, cleanup);
      if Drops(releases, cleanup) {
        suppression.Set(false);
        ended := Some(Dropped);
      } else {
        suppression.Restore();
        ended := Some(Stopped);
      }
    case TopologyWake(edge, sending) =>
      if edge == share.edge {
        return;
      }
      var releases := share.ReconfigureEdge(edge);
      sent' := sent + Prefix(releases, sending);
      if Drops(releases, sending) {
        suppression.Set(false);
        ended := Some(Dropped);
        return;
      }
      if wasRemote {
        suppression.Set(false);
      }
      if Fails(releases, sending) {
        ended := Some(SendError);
      }
    case FocusTimeout(sending) =>
      var releases := share.ReleaseRemoteEvents();
      sent' := sent + Prefix(releases, sending);
      if Drops(releases, sending) {
        suppression.Set(false);
        ended := Some(Dropped);
      } else if Fails(releases, sending) {
        suppression.Set(false);
        ended := Some(SendError);
      } else if wasRemote {
        suppression.Set(false);
      }
    case CaptureFailed(cleanup) =>
      var releases := share.ReleaseRemoteEvents();
      sent' := sent + Prefix(releases, cleanup);
      if Drops(releases, cleanup) {
        suppression.Set(false);
        ended := Some(Dropped);
        return;
      }
      if wasRemote {
        suppression.Set(false);
      }
      ended := Some(CaptureError);
    case Captured(event, crosses, sending) =>
      sent', ended := HandleCaptured(share, suppression, sent, w);
  }
}
