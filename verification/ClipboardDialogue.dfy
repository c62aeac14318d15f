/**
 * Two machines that both copy, over one connection: the whole pipeline of
 * crates/clipboard/src/sync.rs:120-249 in both directions at once, each with its own
 * sealing key, its updates in order and any of them lost.
 */
module ClipboardDialogue {
  import opened Wrappers
  import opened ConflictResolver
  import opened ClipboardContent
  import opened ClipboardCodec
  import opened SessionCipher
  import opened ClipboardSync
  import N = ClipboardNetwork

  /** One emission: the sender as it was, and what was copied. */
  datatype Sent = Sent(from: SyncState, snapshot: Snapshot, now: u64)

  /** One direction: the bytes on the wire, where they come from, and the ids the receiving end has opened. */
  datatype Lane = Lane(wire: seq<Bytes>, sent: seq<Sent>, taken: set<u64>)

  /** One machine; `known` is every selection it has made or taken in. */
  datatype End = End(sync: SyncState, known: set<Selection>)

  /** `refused` says whether a delivered update was ever refused, `lost` whether one was ever lost. */
  datatype Dialogue = Dialogue(left: End, right: End, toRight: Lane, toLeft: Lane, refused: bool, lost: bool)

  datatype Side = Left | Right

  /** A copy on `from`'s machine, and the arrival or loss of the update it sent longest ago. */
  datatype Action =
    | Copies(from: Side, snapshot: Snapshot, now: u64)
    | Arrives(from: Side)
    | Loses(from: Side)

  predicate Emits(pf: Platform, max: nat, x: Sent) {
    var r := PrepareOutbound(pf, max, x.from, x.snapshot, x.now).1;
    r.Ok? && r.value.Some?
  }

  function UpdateOf(pf: Platform, max: nat, x: Sent): ClipboardUpdate
    requires Emits(pf, max, x)
  {
    PrepareOutbound(pf, max, x.from, x.snapshot, x.now).1.value.value
  }

  function SelectionOf(pf: Platform, max: nat, x: Sent): Selection
    requires Emits(pf, max, x)
  {
    Selection(StampOf(UpdateOf(pf, max, x)), pf.fingerprint(x.snapshot))
  }

  /** A copy on one machine, put on the wire if the pipeline emits it. */
  function Copy(pf: Platform, max: nat, e: End, l: Lane, snapshot: Snapshot, now: u64): (r: (End, Lane))
    ensures r.0.sync.window == e.sync.window
    ensures r.1 == l || (r.1.taken == l.taken && |r.1.wire| == |l.wire| + 1
                         && r.1.sent == l.sent + [Sent(e.sync, snapshot, now)]
                         && Emits(pf, max, Sent(e.sync, snapshot, now)))
  {
    OutboundMovesResolverIffSent(pf, max, e.sync, snapshot, now);
    var sync := PrepareOutbound(pf, max, e.sync, snapshot, now).0;
    var x := Sent(e.sync, snapshot, now);
    if !Emits(pf, max, x) || EncodeUpdate(UpdateOf(pf, max, x)).Err? then (End(sync, e.known), l)
    else
      (End(sync, e.known + {SelectionOf(pf, max, x)}),
       l.(wire := l.wire + [EncodeUpdate(UpdateOf(pf, max, x)).value], sent := l.sent + [x]))
  }

  function Rest(l: Lane): Lane
    requires l.wire != [] && l.sent != []
  {
    l.(wire := l.wire[1..], sent := l.sent[1..])
  }

  /** The bytes sent longest ago reach the other machine. */
  function Arrive(pf: Platform, max: nat, e: End, l: Lane): (r: (End, Lane, bool))
    requires |e.sync.window.seen| == WINDOW && l.wire != [] && l.sent != [] && Emits(pf, max, l.sent[0])
    ensures |r.0.sync.window.seen| == WINDOW
  {
    match DecodeUpdate(l.wire[0])
    case Err(_) => (e, Rest(l), true)
    case Ok(u) =>
      var (sync, result) := AcceptInbound(pf, max, e.sync, u);
      (End(sync, e.known + {SelectionOf(pf, max, l.sent[0])}),
       Rest(l).(taken := l.taken + {l.sent[0].from.nextId}), result.Err?)
  }

  function Mirror(d: Dialogue): Dialogue {
    Dialogue(d.right, d.left, d.toLeft, d.toRight, d.refused, d.lost)
  }

  ghost predicate Running(pf: Platform, max: nat, e: End, l: Lane) {
    && |e.sync.window.seen| == WINDOW && |l.wire| == |l.sent|
    && forall x :: x in l.sent ==> Emits(pf, max, x)
  }

  /** The steps of the direction from left to right. */
  ghost function Forward(pf: Platform, max: nat, d: Dialogue, a: Action): (d': Dialogue)
    requires Running(pf, max, d.right, d.toRight)
    ensures Running(pf, max, d'.right, d'.toRight)
    ensures d'.toLeft == d.toLeft && d'.left.sync.window == d.left.sync.window
  {
    match a
    case Copies(_, snapshot, now) =>
      var (left, lane) := Copy(pf, max, d.left, d.toRight, snapshot, now);
      d.(left := left, toRight := lane)
    case Arrives(_) =>
      if d.toRight.wire == [] then d
      else
        var (right, lane, refused) := Arrive(pf, max, d.right, d.toRight);
        d.(right := right, toRight := lane, refused := d.refused || refused)
    case Loses(_) => if d.toRight.wire == [] then d else d.(toRight := Rest(d.toRight), lost := true)
  }

  /** `there` seals what left sends, `back` what right sends. */
  ghost function Step(there: Platform, back: Platform, max: nat, d: Dialogue, a: Action): (d': Dialogue)
    requires Running(there, max, d.right, d.toRight) && Running(back, max, d.left, d.toLeft)
    ensures Running(there, max, d'.right, d'.toRight) && Running(back, max, d'.left, d'.toLeft)
  {
    if a.from.Left? then Forward(there, max, d, a) else Mirror(Forward(back, max, Mirror(d), a))
  }

  ghost function Run(there: Platform, back: Platform, max: nat, d: Dialogue, actions: seq<Action>): (d': Dialogue)
    requires Running(there, max, d.right, d.toRight) && Running(back, max, d.left, d.toLeft)
    ensures Running(there, max, d'.right, d'.toRight) && Running(back, max, d'.left, d'.toLeft)
    decreases |actions|
  {
    if actions == [] then d
    else
      Step(there, back, max, Run(there, back, max, d, actions[..|actions| - 1]), actions[|actions| - 1])
  }

  function Start(a: DeviceId, b: DeviceId, baseThere: u64, baseBack: u64): (d: Dialogue)
    ensures |d.left.sync.window.seen| == WINDOW && |d.right.sync.window.seen| == WINDOW
  {
    var nothing := Lane([], [], {});
    Dialogue(End(NewSync(a, baseThere), {}), End(NewSync(b, baseBack), {}), nothing, nothing, false, false)
  }

  // ---------------------------------------------------------------- the invariant

  /** What is on the wire was emitted by `sender`, in order, and none of it has been opened. */
  ghost predicate LaneSound(pf: Platform, max: nat, sender: End, receiver: End, l: Lane) {
    && Running(pf, max, receiver, l) && Tracks(receiver.sync.window, l.taken)
    && (forall i :: 0 <= i < |l.sent| ==>
          && Canonical(l.sent[i].snapshot) && NamesValid(pf.utf8, l.sent[i].snapshot)
          && EncodeUpdate(UpdateOf(pf, max, l.sent[i])) == Ok(l.wire[i])
          && SelectionOf(pf, max, l.sent[i]) in sender.known
          && l.sent[i].from.nextId < sender.sync.nextId)
    && (forall i, j :: 0 <= i < j < |l.sent| ==> l.sent[i].from.nextId < l.sent[j].from.nextId)
    && (forall id :: id in l.taken ==> id < sender.sync.nextId)
    && (forall id, i :: id in l.taken && 0 <= i < |l.sent| ==> id < l.sent[i].from.nextId)
  }

  ghost predicate EndSound(e: End, local: DeviceId) {
    e.sync.resolver.local == local && Represents(e.sync.resolver, e.known)
  }

  /** Every selection carries the stamp of one of the two machines, not later than that machine's clock. */
  ghost predicate StampsSound(d: Dialogue, a: DeviceId, b: DeviceId) {
    && StampsIdentify(d.left.known + d.right.known)
    && forall s :: s in d.left.known + d.right.known ==>
         && (s.stamp.origin == a || s.stamp.origin == b)
         && (s.stamp.origin == a ==> s.stamp.seq_ <= d.left.sync.resolver.clock)
         && (s.stamp.origin == b ==> s.stamp.seq_ <= d.right.sync.resolver.clock)
  }

  /** Selections still on the wire. */
  ghost predicate OnWire(pf: Platform, max: nat, l: Lane, s: Selection) {
    exists i :: 0 <= i < |l.sent| && Emits(pf, max, l.sent[i]) && SelectionOf(pf, max, l.sent[i]) == s
  }

  /** With nothing lost, what one machine knows the other knows or is about to receive. */
  ghost predicate NothingMissing(pf: Platform, max: nat, sender: End, receiver: End, l: Lane) {
    forall s :: s in sender.known ==> s in receiver.known || OnWire(pf, max, l, s)
  }

  ghost predicate Sound(there: Platform, back: Platform, max: nat, d: Dialogue, a: DeviceId, b: DeviceId) {
    && LaneSound(there, max, d.left, d.right, d.toRight) && LaneSound(back, max, d.right, d.left, d.toLeft)
    && EndSound(d.left, a) && EndSound(d.right, b) && StampsSound(d, a, b) && !d.refused
    && (!d.lost ==> NothingMissing(there, max, d.left, d.right, d.toRight)
                    && NothingMissing(back, max, d.right, d.left, d.toLeft))
  }

  ghost predicate ActionValid(there: Platform, back: Platform, a: Action) {
    a.Copies? ==> Canonical(a.snapshot) && NamesValid(if a.from.Left? then there.utf8 else back.utf8, a.snapshot)
  }

  lemma MirrorSound(there: Platform, back: Platform, max: nat, d: Dialogue, a: DeviceId, b: DeviceId)
    ensures Sound(there, back, max, d, a, b) <==> Sound(back, there, max, Mirror(d), b, a)
  {
    hide LaneSound, EndSound, NothingMissing;
    assert d.left.known + d.right.known == d.right.known + d.left.known;
  }

  // ---------------------------------------------------------------- a copy

  /** An emission is a minted selection; without one the resolver stays. */
  lemma EmissionMints(pf: Platform, max: nat, x: Sent)
    ensures var (st, r) := PrepareOutbound(pf, max, x.from, x.snapshot, x.now);
            var (resolver, decision) := OnLocalChange(x.from.resolver, pf.fingerprint(x.snapshot), x.now);
            && (Emits(pf, max, x) ==> st.resolver == resolver && decision == Broadcast(StampOf(UpdateOf(pf, max, x))))
            && (!Emits(pf, max, x) ==> st.resolver == x.from.resolver)
            && st.window == x.from.window && x.from.nextId <= st.nextId
            && (Emits(pf, max, x) ==> x.from.nextId < st.nextId)
  {
    hide Encode, Compress, Seal, OnLocalChange;
    SealMovesOn(pf.seal, x.from.nextId);
    ExhaustionIsFinal(x.from.resolver, pf.fingerprint(x.snapshot), x.now);
  }

  /** An update within the 64 MiB limit always encodes. */
  lemma EmittedEncodes(pf: Platform, max: nat, x: Sent)
    requires max <= MAX_TOTAL_BYTES && Emits(pf, max, x)
    ensures var u := UpdateOf(pf, max, x);
            NamesFit(x.snapshot) && EncodeUpdate(u).Ok? && DecodeUpdate(EncodeUpdate(u).value) == Ok(u)
  {
    hide PrepareOutbound, EncodeUpdate, DecodeUpdate, NamesFit;
    EmittedSurvivesWire(pf, max, x.from, x.snapshot, x.now);
  }

  /** The copy as a pair: without an emission only ids move; with one, the end, the lane and the selection. */
  lemma CopyOutcome(pf: Platform, max: nat, e: End, l: Lane, snapshot: Snapshot, now: u64)
    requires max <= MAX_TOTAL_BYTES
    ensures var x := Sent(e.sync, snapshot, now);
            var (e', l') := Copy(pf, max, e, l, snapshot, now);
            && e'.sync.window == e.sync.window && e.sync.nextId <= e'.sync.nextId
            && (if Emits(pf, max, x) then
                  && e.sync.nextId < e'.sync.nextId && EncodeUpdate(UpdateOf(pf, max, x)).Ok?
                  && e'.known == e.known + {SelectionOf(pf, max, x)}
                  && l' == l.(wire := l.wire + [EncodeUpdate(UpdateOf(pf, max, x)).value], sent := l.sent + [x])
                else e'.sync.resolver == e.sync.resolver && e'.known == e.known && l' == l)
  {
    hide PrepareOutbound, EncodeUpdate, DecodeUpdate, UpdateOf, SelectionOf, Emits, OnLocalChange;
    var x := Sent(e.sync, snapshot, now);
    EmissionMints(pf, max, x);
    if Emits(pf, max, x) {
      EmittedEncodes(pf, max, x);
    }
  }

  /** The wire after an emission. */
  lemma LaneGrows(pf: Platform, max: nat, e: End, receiver: End, l: Lane, snapshot: Snapshot, now: u64)
    requires max <= MAX_TOTAL_BYTES && LaneSound(pf, max, e, receiver, l)
    requires Canonical(snapshot) && NamesValid(pf.utf8, snapshot)
    ensures var (e', l') := Copy(pf, max, e, l, snapshot, now); LaneSound(pf, max, e', receiver, l')
  {
    hide Copy, Emits, UpdateOf, SelectionOf, EncodeUpdate, Canonical, NamesValid, Tracks;
    CopyOutcome(pf, max, e, l, snapshot, now);
  }

  lemma CopyKeepsEnd(pf: Platform, max: nat, e: End, l: Lane, snapshot: Snapshot, now: u64, local: DeviceId)
    requires max <= MAX_TOTAL_BYTES && EndSound(e, local)
    ensures var (e', l') := Copy(pf, max, e, l, snapshot, now);
            var x := Sent(e.sync, snapshot, now);
            && EndSound(e', local) && e.sync.resolver.clock <= e'.sync.resolver.clock
            && (Emits(pf, max, x) ==>
                  var stamp := SelectionOf(pf, max, x).stamp;
                  stamp.origin == local && e.sync.resolver.clock < stamp.seq_ <= e'.sync.resolver.clock)
  {
    hide PrepareOutbound, EncodeUpdate, DecodeUpdate, Represents;
    var x := Sent(e.sync, snapshot, now);
    EmissionMints(pf, max, x);
    CopyOutcome(pf, max, e, l, snapshot, now);
    if Emits(pf, max, x) {
      MintedRepresents(e.sync.resolver, e.known, pf.fingerprint(snapshot), now);
    }
  }

  /** A stamp later than everything its machine has stamped keeps stamps telling contents apart. */
  lemma MintKeepsStamps(d: Dialogue, left: End, a: DeviceId, b: DeviceId, minted: Selection)
    requires StampsSound(d, a, b) && a != b && left.known == d.left.known + {minted} && minted.stamp.origin == a
    requires d.left.sync.resolver.clock < minted.stamp.seq_ <= left.sync.resolver.clock
    ensures StampsSound(d.(left := left), a, b)
  {
  }

  lemma ClockKeepsStamps(d: Dialogue, left: End, a: DeviceId, b: DeviceId)
    requires StampsSound(d, a, b) && left.known == d.left.known
    requires d.left.sync.resolver.clock <= left.sync.resolver.clock
    ensures StampsSound(d.(left := left), a, b)
  {
  }

  /** The other direction does not notice a copy here. */
  lemma OtherLaneKept(pf: Platform, max: nat, sender: End, receiver: End, receiver': End, l: Lane)
    requires LaneSound(pf, max, sender, receiver, l) && receiver'.sync.window == receiver.sync.window
    ensures LaneSound(pf, max, sender, receiver', l)
  {
    hide Emits, UpdateOf, SelectionOf, EncodeUpdate, Canonical, NamesValid, Tracks;
  }

  lemma CopyMissesNothing(pf: Platform, max: nat, e: End, receiver: End, l: Lane, snapshot: Snapshot, now: u64)
    requires max <= MAX_TOTAL_BYTES && NothingMissing(pf, max, e, receiver, l)
    ensures var (e', l') := Copy(pf, max, e, l, snapshot, now); NothingMissing(pf, max, e', receiver, l')
  {
    hide Copy, Emits, UpdateOf, SelectionOf, EncodeUpdate;
    CopyOutcome(pf, max, e, l, snapshot, now);
    var (e', l') := Copy(pf, max, e, l, snapshot, now);
    forall s | s in e'.known ensures s in receiver.known || OnWire(pf, max, l', s) {
      if s in e.known {
        if OnWire(pf, max, l, s) {
          var i :| 0 <= i < |l.sent| && Emits(pf, max, l.sent[i]) && SelectionOf(pf, max, l.sent[i]) == s;
          assert l'.sent[i] == l.sent[i];
        }
      } else {
        assert l'.sent[|l.sent|] == Sent(e.sync, snapshot, now);
      }
    }
  }

  lemma KnownMore(pf: Platform, max: nat, sender: End, receiver: End, receiver': End, l: Lane)
    requires NothingMissing(pf, max, sender, receiver, l) && receiver.known <= receiver'.known
    ensures NothingMissing(pf, max, sender, receiver', l)
  {
    hide OnWire;
  }

  lemma CopySound(there: Platform, back: Platform, max: nat, d: Dialogue, a: DeviceId, b: DeviceId, act: Action)
    requires max <= MAX_TOTAL_BYTES && a != b && Sound(there, back, max, d, a, b)
    requires act.Copies? && act.from.Left? && ActionValid(there, back, act)
    ensures Sound(there, back, max, Forward(there, max, d, act), a, b)
  {
    hide LaneSound, EndSound, StampsSound, NothingMissing, Copy, PrepareOutbound, Canonical, NamesValid, EncodeUpdate,
         Emits, SelectionOf;
    assert Running(there, max, d.right, d.toRight) by { LaneRuns(there, max, d.left, d.right, d.toRight); }
    var (left, lane) := Copy(there, max, d.left, d.toRight, act.snapshot, act.now);
    LaneGrows(there, max, d.left, d.right, d.toRight, act.snapshot, act.now);
    CopyOutcome(there, max, d.left, d.toRight, act.snapshot, act.now);
    CopyKeepsEnd(there, max, d.left, d.toRight, act.snapshot, act.now, a);
    OtherLaneKept(back, max, d.right, d.left, left, d.toLeft);
    var x := Sent(d.left.sync, act.snapshot, act.now);
    if Emits(there, max, x) {
      MintKeepsStamps(d, left, a, b, SelectionOf(there, max, x));
    } else {
      ClockKeepsStamps(d, left, a, b);
    }
    StampsElsewhere(d.(left := left), lane, a, b);
    if !d.lost {
      CopyMissesNothing(there, max, d.left, d.right, d.toRight, act.snapshot, act.now);
      KnownMore(back, max, d.right, d.left, left, d.toLeft);
    }
  }

  lemma LaneRuns(pf: Platform, max: nat, sender: End, receiver: End, l: Lane)
    requires LaneSound(pf, max, sender, receiver, l)
    ensures Running(pf, max, receiver, l)
  {
    hide Emits, UpdateOf, SelectionOf, EncodeUpdate;
  }

  lemma StampsElsewhere(d: Dialogue, l: Lane, a: DeviceId, b: DeviceId)
    requires StampsSound(d, a, b)
    ensures StampsSound(d.(toRight := l), a, b)
  {
  }

  // ---------------------------------------------------------------- an arrival

  /** What was sent longest ago is accepted, and the receiving end resolves the very selection that was made. */
  lemma ArrivalAccepted(pf: Platform, max: nat, sender: End, receiver: End, l: Lane)
    requires Lawful(pf) && max <= MAX_TOTAL_BYTES && LaneSound(pf, max, sender, receiver, l) && l.wire != []
    ensures Running(pf, max, receiver, l) && l.sent != []
    ensures var x := l.sent[0];
            var (e, l', refused) := Arrive(pf, max, receiver, l);
            && !refused && l' == Rest(l).(taken := l.taken + {x.from.nextId})
            && e.sync.resolver == OnInbound(receiver.sync.resolver, SelectionOf(pf, max, x)).0
            && e.known == receiver.known + {SelectionOf(pf, max, x)}
            && Tracks(e.sync.window, l'.taken) && e.sync.nextId == receiver.sync.nextId
  {
    hide PrepareOutbound, AcceptInbound, OnInbound, EncodeUpdate, DecodeUpdate, Lawful, Tracks, NamesFit, Canonical,
         NamesValid;
    var x := l.sent[0];
    EmittedEncodes(pf, max, x);
    assert Fresh(x.from.nextId, l.taken);
    EmittedAcceptedIff(pf, max, x.from, x.snapshot, x.now, receiver.sync, l.taken);
  }

  lemma LaneShrinks(pf: Platform, max: nat, sender: End, receiver: End, receiver': End, l: Lane)
    requires LaneSound(pf, max, sender, receiver, l) && l.wire != []
    requires Tracks(receiver'.sync.window, l.taken + {l.sent[0].from.nextId})
    ensures LaneSound(pf, max, sender, receiver', Rest(l).(taken := l.taken + {l.sent[0].from.nextId}))
  {
    hide Emits, UpdateOf, SelectionOf, EncodeUpdate, Canonical, NamesValid;
    hide Tracks;
    TracksLength(receiver'.sync.window, l.taken + {l.sent[0].from.nextId});
  }

  lemma TracksLength(w: ReplayWindow, taken: set<u64>)
    requires Tracks(w, taken)
    ensures |w.seen| == WINDOW
  {
  }

  /** A sender that knows more and has used no fewer ids still stands behind its wire. */
  lemma SenderMore(pf: Platform, max: nat, sender: End, sender': End, receiver: End, l: Lane)
    requires LaneSound(pf, max, sender, receiver, l) && sender.known <= sender'.known
    requires sender'.sync.nextId == sender.sync.nextId
    ensures LaneSound(pf, max, sender', receiver, l)
  {
    hide Emits, UpdateOf, SelectionOf, EncodeUpdate, Canonical, NamesValid, Tracks;
  }

  lemma HeadIsKnown(pf: Platform, max: nat, sender: End, receiver: End, l: Lane)
    requires LaneSound(pf, max, sender, receiver, l) && l.wire != []
    ensures l.sent != [] && Emits(pf, max, l.sent[0]) && SelectionOf(pf, max, l.sent[0]) in sender.known
  {
    hide Emits, UpdateOf, SelectionOf, EncodeUpdate, Canonical, NamesValid, Tracks;
  }

  lemma ArrivalMissesNothing(pf: Platform, max: nat, sender: End, receiver: End, receiver': End, l: Lane,
                             taken: set<u64>)
    requires NothingMissing(pf, max, sender, receiver, l) && l.wire != [] && l.sent != [] && Emits(pf, max, l.sent[0])
    requires receiver'.known == receiver.known + {SelectionOf(pf, max, l.sent[0])}
    ensures NothingMissing(pf, max, sender, receiver', Rest(l).(taken := taken))
  {
    hide Emits, UpdateOf, SelectionOf;
    var rest := Rest(l).(taken := taken);
    forall s | s in sender.known ensures s in receiver'.known || OnWire(pf, max, rest, s) {
      if s !in receiver.known {
        var i :| 0 <= i < |l.sent| && Emits(pf, max, l.sent[i]) && SelectionOf(pf, max, l.sent[i]) == s;
        if i > 0 {
          assert rest.sent[i - 1] == l.sent[i];
        }
      }
    }
  }

  lemma TakenStamps(d: Dialogue, right: End, a: DeviceId, b: DeviceId, s: Selection)
    requires StampsSound(d, a, b) && s in d.left.known && right.known == d.right.known + {s}
    requires d.right.sync.resolver.clock <= right.sync.resolver.clock
    ensures StampsSound(d.(right := right), a, b) && StampsIdentify(right.known)
  {
    assert d.left.known + right.known == d.left.known + d.right.known;
  }

  lemma ArriveSound(there: Platform, back: Platform, max: nat, d: Dialogue, a: DeviceId, b: DeviceId, act: Action)
    requires Lawful(there) && max <= MAX_TOTAL_BYTES && Sound(there, back, max, d, a, b)
    requires act.Arrives? && act.from.Left?
    ensures Sound(there, back, max, Forward(there, max, d, act), a, b)
  {
    hide LaneSound, StampsSound, NothingMissing, Arrive, Tracks, Lawful, Emits, SelectionOf, OnInbound, Represents,
         StampsIdentify;
    assert Running(there, max, d.right, d.toRight) by { LaneRuns(there, max, d.left, d.right, d.toRight); }
    if d.toRight.wire != [] {
      ArrivalAccepted(there, max, d.left, d.right, d.toRight);
      HeadIsKnown(there, max, d.left, d.right, d.toRight);
      var selection := SelectionOf(there, max, d.toRight.sent[0]);
      var (right, lane, refused) := Arrive(there, max, d.right, d.toRight);
      InboundClock(d.right.sync.resolver, selection);
      LaneShrinks(there, max, d.left, d.right, right, d.toRight);
      SenderMore(back, max, d.right, right, d.left, d.toLeft);
      TakenStamps(d, right, a, b, selection);
      InboundRepresents(d.right.sync.resolver, d.right.known, selection);
      StampsElsewhere(d.(right := right), lane, a, b);
      if !d.lost {
        ArrivalMissesNothing(there, max, d.left, d.right, right, d.toRight, lane.taken);
        AlreadyKnown(back, max, d.right, right, d.left, d.toLeft, selection);
      }
    }
  }

  lemma InboundClock(r: Resolver, incoming: Selection)
    ensures r.clock <= OnInbound(r, incoming).0.clock && OnInbound(r, incoming).0.local == r.local
  {
  }

  /** What just arrived is known where it came from. */
  lemma AlreadyKnown(pf: Platform, max: nat, sender: End, sender': End, receiver: End, l: Lane, s: Selection)
    requires NothingMissing(pf, max, sender, receiver, l) && s in receiver.known && sender'.known == sender.known + {s}
    ensures NothingMissing(pf, max, sender', receiver, l)
  {
    hide OnWire;
  }

  lemma LoseSound(there: Platform, back: Platform, max: nat, d: Dialogue, a: DeviceId, b: DeviceId, act: Action)
    requires Sound(there, back, max, d, a, b) && act.Loses? && act.from.Left?
    ensures Sound(there, back, max, Forward(there, max, d, act), a, b)
  {
    hide StampsSound, NothingMissing, EndSound, Emits, UpdateOf, SelectionOf, EncodeUpdate, Canonical, NamesValid,
         Tracks;
    StampsElsewhere(d, if d.toRight.wire != [] then Rest(d.toRight) else d.toRight, a, b);
    StampsDespiteLoss(d.(toRight := if d.toRight.wire != [] then Rest(d.toRight) else d.toRight), a, b);
  }

  lemma StampsDespiteLoss(d: Dialogue, a: DeviceId, b: DeviceId)
    requires StampsSound(d, a, b)
    ensures StampsSound(d.(lost := true), a, b)
  {
  }

  // ---------------------------------------------------------------- every run

  lemma ForwardSound(there: Platform, back: Platform, max: nat, d: Dialogue, a: DeviceId, b: DeviceId, act: Action)
    requires Lawful(there) && max <= MAX_TOTAL_BYTES && a != b && Sound(there, back, max, d, a, b)
    requires act.from.Left? && ActionValid(there, back, act)
    ensures Running(there, max, d.right, d.toRight) && Running(back, max, d.left, d.toLeft)
    ensures Sound(there, back, max, Forward(there, max, d, act), a, b)
  {
    hide Forward, Lawful, LaneSound, EndSound, StampsSound, NothingMissing, Running, ActionValid;
    LaneRuns(there, max, d.left, d.right, d.toRight);
    LaneRuns(back, max, d.right, d.left, d.toLeft);
    match act
    case Copies(_, _, _) => CopySound(there, back, max, d, a, b, act);
    case Arrives(_) => ArriveSound(there, back, max, d, a, b, act);
    case Loses(_) => LoseSound(there, back, max, d, a, b, act);
  }

  lemma StepSound(there: Platform, back: Platform, max: nat, d: Dialogue, a: DeviceId, b: DeviceId, act: Action)
    requires Lawful(there) && Lawful(back) && max <= MAX_TOTAL_BYTES && a != b && Sound(there, back, max, d, a, b)
    requires ActionValid(there, back, act)
    ensures Running(there, max, d.right, d.toRight) && Running(back, max, d.left, d.toLeft)
    ensures Sound(there, back, max, Step(there, back, max, d, act), a, b)
  {
    hide Forward, Lawful, Sound, Running;
    SoundRuns(there, back, max, d, a, b);
    if act.from.Left? {
      ForwardSound(there, back, max, d, a, b, act);
    } else {
      MirrorSound(there, back, max, d, a, b);
      var mirrored := if act.Copies? then act.(from := Left) else if act.Arrives? then Arrives(Left) else Loses(Left);
      ForwardSound(back, there, max, Mirror(d), b, a, mirrored);
      SameForward(back, max, Mirror(d), act, mirrored);
      MirrorSound(back, there, max, Forward(back, max, Mirror(d), act), b, a);
    }
  }

  lemma SoundRuns(there: Platform, back: Platform, max: nat, d: Dialogue, a: DeviceId, b: DeviceId)
    requires Sound(there, back, max, d, a, b)
    ensures Running(there, max, d.right, d.toRight) && Running(back, max, d.left, d.toLeft)
  {
    hide LaneSound, Running, EndSound, StampsSound, NothingMissing;
    LaneRuns(there, max, d.left, d.right, d.toRight);
    LaneRuns(back, max, d.right, d.left, d.toLeft);
  }

  lemma SameForward(pf: Platform, max: nat, d: Dialogue, a: Action, b: Action)
    requires Running(pf, max, d.right, d.toRight)
    requires match (a, b)
             case (Copies(_, s, now), Copies(_, s', now')) => s == s' && now == now'
             case (Arrives(_), Arrives(_)) => true
             case (Loses(_), Loses(_)) => true
             case _ => false
    ensures Forward(pf, max, d, a) == Forward(pf, max, d, b)
  {
    hide Copy, Arrive, PrepareOutbound;
  }

  lemma {:induction false} RunSound(there: Platform, back: Platform, max: nat, d: Dialogue, a: DeviceId, b: DeviceId,
                                    actions: seq<Action>)
    requires Lawful(there) && Lawful(back) && max <= MAX_TOTAL_BYTES && a != b && Sound(there, back, max, d, a, b)
    requires forall act :: act in actions ==> ActionValid(there, back, act)
    ensures Running(there, max, d.right, d.toRight) && Running(back, max, d.left, d.toLeft)
    ensures Sound(there, back, max, Run(there, back, max, d, actions), a, b)
    decreases |actions|
  {
    hide Step, Lawful, Sound, Running, ActionValid;
    SoundRuns(there, back, max, d, a, b);
    if actions != [] {
      var front, act := actions[..|actions| - 1], actions[|actions| - 1];
      assert act in actions && forall other :: other in front ==> other in actions;
      RunSound(there, back, max, d, a, b, front);
      StepSound(there, back, max, Run(there, back, max, d, front), a, b, act);
    }
  }

  /**
   * Over any run of copies on both machines, with any updates lost on the way: no update that arrives is ever refused,
   * each machine holds the newest of all it has made and taken in, and whenever nothing has been lost and nothing is
   * on the wire, both hold the same.
   */
  lemma DialogueConverges(there: Platform, back: Platform, max: nat, a: DeviceId, b: DeviceId, baseThere: u64,
                          baseBack: u64,
                          actions: seq<Action>)
    requires Lawful(there) && Lawful(back) && max <= MAX_TOTAL_BYTES && a != b
    requires forall act :: act in actions ==> ActionValid(there, back, act)
    ensures var d := Run(there, back, max, Start(a, b, baseThere, baseBack), actions);
            && !d.refused
            && Represents(d.left.sync.resolver, d.left.known) && Represents(d.right.sync.resolver, d.right.known)
            && (!d.lost && d.toRight.wire == [] && d.toLeft.wire == [] ==>
                  d.left.known == d.right.known && d.left.sync.resolver.current == d.right.sync.resolver.current)
  {
    hide Step, Run, Lawful, Running, ActionValid, Represents, LaneSound, StampsIdentify;
    var start := Start(a, b, baseThere, baseBack);
    assert Sound(there, back, max, start, a, b) by { StartSound(there, back, max, a, b, baseThere, baseBack); }
    RunSound(there, back, max, start, a, b, actions);
    var d := Run(there, back, max, start, actions);
    SoundRuns(there, back, max, d, a, b);
    if !d.lost && d.toRight.wire == [] && d.toLeft.wire == [] {
      QuietLane(there, max, d.left, d.right, d.toRight);
      QuietLane(back, max, d.right, d.left, d.toLeft);
      assert d.left.known + d.right.known == d.left.known;
      SameNewest(d.left, d.right, a, b);
    }
  }

  lemma StartSound(there: Platform, back: Platform, max: nat, a: DeviceId, b: DeviceId, baseThere: u64, baseBack: u64)
    ensures Sound(there, back, max, Start(a, b, baseThere, baseBack), a, b)
  {
  }

  lemma QuietLane(pf: Platform, max: nat, sender: End, receiver: End, l: Lane)
    requires NothingMissing(pf, max, sender, receiver, l) && Running(pf, max, receiver, l) && l.wire == []
    ensures sender.known <= receiver.known
  {
  }

  lemma SameNewest(left: End, right: End, a: DeviceId, b: DeviceId)
    requires EndSound(left, a) && EndSound(right, b) && left.known == right.known && StampsIdentify(left.known)
    ensures left.sync.resolver.current == right.sync.resolver.current
  {
    if left.known != {} {
      N.NewestIsUnique(left.sync.resolver.current.value, right.sync.resolver.current.value, left.known);
    }
  }
}
