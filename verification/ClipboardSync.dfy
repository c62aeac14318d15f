/**
 * The two directions of a clipboard sync: crates/clipboard/src/sync.rs:120-249,
 * with crates/clipboard/src/compression.rs:54-140.
 *
 * Outbound: resolver check, encode, compress, seal, mint a stamp.
 * Inbound: open, decompress within a bound, decode, resolve.
 */
module ClipboardSync {
  import opened Wrappers
  import opened WireBytes
  import opened ConflictResolver
  import opened ClipboardContent
  import opened ClipboardCodec
  import opened SessionCipher

  /**
   * What both devices run but this model does not look inside: the content hash, the
   * concealed and compression policies, the compressor, and one direction of the session.
   * `inflate` gives the bytes a stream produces and the error it then ends with, if any.
   */
  datatype Platform = Platform(
    fingerprint: Snapshot -> Fingerprint,
    concealed: Snapshot -> bool,
    choose: Snapshot -> Algorithm,
    utf8: Utf8,
    deflate: Bytes -> Result<Bytes, string>,
    inflate: Bytes -> (Bytes, Option<string>),
    seal: Crypt,
    open: Crypt)

  /** What was deflated inflates to itself, and what was sealed opens to itself. */
  ghost predicate Lawful(pf: Platform) {
    && Opens(pf.seal, pf.open)
    && forall b :: pf.deflate(b).Ok? ==> pf.inflate(pf.deflate(b).value) == (b, None)
  }

  function Compress(pf: Platform, a: Algorithm, data: Bytes): Result<Bytes, ClipboardError> {
    match a
    case Verbatim => Ok(data)
    case Deflate =>
      match pf.deflate(data)
      case Err(error) => Err(Compression(error))
      case Ok(out) => Ok(out)
  }

  /** At most `max + 1` bytes are ever produced; an error past that point is never reached. */
  function DecompressBounded(pf: Platform, a: Algorithm, data: Bytes, max: nat): Result<Bytes, ClipboardError> {
    match a
    case Verbatim => if |data| > max then Err(TooLarge(|data|, max)) else Ok(data)
    case Deflate =>
      var (out, error) := pf.inflate(data);
      if |out| > max then Err(TooLarge(max + 1, max))
      else if error.Some? then Err(Compression(error.value))
      else Ok(out)
  }

  /**
   * Decompressing gives back what was compressed exactly when it is within the bound, and never more than the bound.
   */
  lemma CompressRoundTripIff(pf: Platform, a: Algorithm, data: Bytes, max: nat)
    requires Lawful(pf) && Compress(pf, a, data).Ok?
    ensures DecompressBounded(pf, a, Compress(pf, a, data).value, max) == Ok(data) <==> |data| <= max
    ensures DecompressBounded(pf, a, Compress(pf, a, data).value, max).Ok? <==> |data| <= max
  {
  }

  // ---------------------------------------------------------------- one device

  datatype SyncState = SyncState(resolver: Resolver, nextId: u64, window: ReplayWindow)

  function NewSync(local: DeviceId, baseId: u64): (st: SyncState) {
    SyncState(NewResolver(local), baseId, EmptyWindow())
  }

  function PrepareOutbound(pf: Platform, max: nat, st: SyncState, s: Snapshot, now: u64): (SyncState,
      Result<Option<ClipboardUpdate>, ClipboardError>) {
    if pf.concealed(s) || Holds(st.resolver, pf.fingerprint(s)) then (st, Ok(None))
    else
      match Encode(s)
      case Err(error) => (st, Err(error))
      case Ok(encoded) =>
        if |encoded| > max then (st, Err(TooLarge(|encoded|, max)))
        else
          match Compress(pf, pf.choose(s), encoded)
          case Err(error) => (st, Err(error))
          case Ok(compressed) => SealOutbound(pf, max, st, s, now, compressed)
  }

  /** Sealing consumes an id whether or not the update is then sent; the stamp is minted last. */
  function SealOutbound(pf: Platform, max: nat, st: SyncState, s: Snapshot, now: u64, compressed: Bytes): (SyncState,
      Result<Option<ClipboardUpdate>, ClipboardError>) {
    var (nextId, sealed) := Seal(pf.seal, st.nextId, compressed);
    var sealing := st.(nextId := nextId);
    match sealed
    case Err(error) => (sealing, Err(error))
    case Ok(payload) =>
      if |payload| > max then (sealing, Err(TooLarge(|payload|, max)))
      else
        var (resolver, decision) := OnLocalChange(st.resolver, pf.fingerprint(s), now);
        match decision
        case Suppress => (sealing, Ok(None))
        case ClockExhausted => (sealing, Err(ClockExhaustedError))
        case Broadcast(stamp) =>
          (sealing.(resolver := resolver),
           Ok(Some(ClipboardUpdate(stamp.origin, stamp.seq_, stamp.atMillis, pf.choose(s), payload))))
  }

  function StampOf(u: ClipboardUpdate): OriginStamp {
    OriginStamp(u.origin, u.seq_, u.atMillis)
  }

  function AcceptInbound(pf: Platform, max: nat, st: SyncState,
                         u: ClipboardUpdate): (r: (SyncState, Result<Option<Snapshot>, ClipboardError>))
    requires |st.window.seen| == WINDOW
    ensures |r.0.window.seen| == WINDOW
  {
    if |u.payload| > max then (st, Err(TooLarge(|u.payload|, max)))
    else
      var (window, opening) := Open(pf.open, st.window, u.payload);
      var openedState := st.(window := window);
      match opening
      case Err(error) => (openedState, Err(error))
      case Ok(compressed) =>
        match DecompressBounded(pf, u.compression, compressed, max)
        case Err(error) => (openedState, Err(error))
        case Ok(encoded) =>
          match Decode(pf.utf8, encoded)
          case Err(error) => (openedState, Err(error))
          case Ok(s) =>
            var (resolver, decision) := OnInbound(st.resolver, Selection(StampOf(u), pf.fingerprint(s)));
            (openedState.(resolver := resolver), Ok(if decision.Apply? then Some(s) else None))
  }

  // ---------------------------------------------------------------- what one call leaves alone

  /** Only a sent update moves the sender's selection, and then exactly to it; no call reuses a sealing id. */
  lemma OutboundMovesResolverIffSent(pf: Platform, max: nat, st: SyncState, s: Snapshot, now: u64)
    ensures var (st', r) := PrepareOutbound(pf, max, st, s, now);
            && (st'.resolver != st.resolver <==> r.Ok? && r.value.Some?)
            && st'.window == st.window
            && (st'.nextId == st.nextId || st'.nextId as nat == st.nextId as nat + 1)
            && (r.Ok? && r.value.Some? ==>
                  var u := r.value.value;
                  && st'.nextId > st.nextId && |u.payload| <= max
                  && u.compression == pf.choose(s) && !pf.concealed(s)
                  && st'.resolver.current == Some(Selection(StampOf(u), pf.fingerprint(s))))
  {
    hide Encode, Compress, Seal;
    SealMovesOn(pf.seal, st.nextId);
  }

  lemma SealMovesOn(seal: Crypt, nextId: u64)
    ensures forall plain :: var (id, r) := Seal(seal, nextId, plain);
            (id == nextId || id as nat == nextId as nat + 1) && (r.Ok? ==> id > nextId)
  {
  }

  /** An inbound update that is refused leaves the selection and the clock as they were. */
  lemma InboundRefusalKeepsResolver(pf: Platform, max: nat, st: SyncState, u: ClipboardUpdate)
    requires |st.window.seen| == WINDOW && AcceptInbound(pf, max, st, u).1.Err?
    ensures AcceptInbound(pf, max, st, u).0.resolver == st.resolver
            && AcceptInbound(pf, max, st, u).0.nextId == st.nextId
  {
    hide Decode, DecompressBounded, Open;
  }

  // ---------------------------------------------------------------- end to end

  /** What an emitted update carries. */
  lemma EmittedShape(pf: Platform, max: nat, st: SyncState, s: Snapshot, now: u64)
    requires PrepareOutbound(pf, max, st, s, now).1.Ok? && PrepareOutbound(pf, max, st, s, now).1.value.Some?
    ensures var u := PrepareOutbound(pf, max, st, s, now).1.value.value;
            && Encode(s).Ok? && |Encode(s).value| <= max
            && Compress(pf, u.compression, Encode(s).value).Ok?
            && Seal(pf.seal, st.nextId, Compress(pf, u.compression, Encode(s).value).value).1 == Ok(u.payload)
            && |u.payload| <= max
  {
    hide Encode, Compress, Seal;
  }

  /**
   * Over the same limit, an emitted update is accepted exactly when the snapshot's names are within the
   * decoder's bound, and what the receiver resolves is then the very snapshot that was copied.
   */
  lemma EmittedAcceptedIff(pf: Platform, max: nat, sender: SyncState, s: Snapshot, now: u64, receiver: SyncState,
                           accepted: set<u64>)
    requires Lawful(pf) && Canonical(s) && NamesValid(pf.utf8, s)
    requires PrepareOutbound(pf, max, sender, s, now).1.Ok? && PrepareOutbound(pf, max, sender, s, now).1.value.Some?
    requires Tracks(receiver.window, accepted) && Fresh(sender.nextId, accepted)
    ensures var u := PrepareOutbound(pf, max, sender, s, now).1.value.value;
            var (receiver', r) := AcceptInbound(pf, max, receiver, u);
            var (resolver, decision) := OnInbound(receiver.resolver, Selection(StampOf(u), pf.fingerprint(s)));
            && (r.Ok? <==> NamesFit(s))
            && (r.Ok? ==> receiver'.resolver == resolver && r.value == if decision.Apply? then Some(s) else None)
            && Tracks(receiver'.window, accepted + {sender.nextId}) && receiver'.nextId == receiver.nextId
  {
    EmittedShape(pf, max, sender, s, now);
    var u := PrepareOutbound(pf, max, sender, s, now).1.value.value;
    var compressed := Compress(pf, u.compression, Encode(s).value).value;
    SealedOpensIff(pf.seal, pf.open, sender.nextId, compressed, receiver.window, accepted);
    CompressRoundTripIff(pf, u.compression, Encode(s).value, max);
    SnapshotRoundTripIff(pf.utf8, s);
    hide PrepareOutbound, Lawful, Tracks, Fresh, Open, Seal, Encode, Decode, Compress, DecompressBounded, NamesFit,
         OnInbound;
  }

  /** A limit of at most 64 MiB leaves no room for a name the decoder would refuse. */
  lemma {:induction false} EncodedNamesFit(s: Snapshot)
    requires EncodeFormats(s).Ok?
    ensures forall c :: c in s ==> |c.mime| <= |EncodeFormats(s).value|
  {
    if s != [] {
      EncodedNamesFit(s[1..]);
      assert s == [s[0]] + s[1..];
    }
  }

  /** The same update on the wire: its envelope is decoded to it. */
  lemma EmittedSurvivesWire(pf: Platform, max: nat, st: SyncState, s: Snapshot, now: u64)
    requires max <= MAX_TOTAL_BYTES
    requires PrepareOutbound(pf, max, st, s, now).1.Ok? && PrepareOutbound(pf, max, st, s, now).1.value.Some?
    ensures var u := PrepareOutbound(pf, max, st, s, now).1.value.value;
            && NamesFit(s) && EncodeUpdate(u).Ok? && DecodeUpdate(EncodeUpdate(u).value) == Ok(u)
  {
    EmittedShape(pf, max, st, s, now);
    EncodedNamesFit(s);
    var u := PrepareOutbound(pf, max, st, s, now).1.value.value;
    UpdateDecodeInverts(u, EncodeUpdate(u).value);
  }

  /**
   * End to end: whatever a device emits, encoded, decoded and given to a fresh receiver with the same limit, yields
   * the snapshot.
   */
  lemma FreshReceiverApplies(pf: Platform, max: nat, sender: SyncState, s: Snapshot, now: u64, peer: DeviceId,
                             baseId: u64)
    requires Lawful(pf) && Canonical(s) && NamesValid(pf.utf8, s) && max <= MAX_TOTAL_BYTES
    requires PrepareOutbound(pf, max, sender, s, now).1.Ok? && PrepareOutbound(pf, max, sender, s, now).1.value.Some?
    ensures var u := PrepareOutbound(pf, max, sender, s, now).1.value.value;
            EncodeUpdate(u).Ok? && DecodeUpdate(EncodeUpdate(u).value) == Ok(u)
            && AcceptInbound(pf, max, NewSync(peer, baseId), u).1 == Ok(Some(s))
  {
    EmittedSurvivesWire(pf, max, sender, s, now);
    EmittedAcceptedIff(pf, max, sender, s, now, NewSync(peer, baseId), {});
  }

  /** A payload opened once is refused ever after, and changes nothing. */
  lemma ReplayIsRefused(pf: Platform, max: nat, st: SyncState, u: ClipboardUpdate, accepted: set<u64>)
    requires Tracks(st.window, accepted) && |u.payload| >= ID_FRAME_LEN && FrameId(u.payload) in accepted
    ensures AcceptInbound(pf, max, st, u).0 == st && AcceptInbound(pf, max, st, u).1.Err?
  {
    WindowRefinesSet(st.window, accepted, FrameId(u.payload));
    hide CheckAndMark, Tracks;
  }

  // ---------------------------------------------------------------- a link, over any run

  /** One copy on the sender, and whether the link then loses its update. */
  datatype Copy = Copy(snapshot: Snapshot, now: u64, lost: bool)

  /**
   * The sender, the receiver, the ids the receiver has opened, the selection of the last update delivered,
   * what was sent, what the receiver put on its pasteboard, and whether any delivered update was refused.
   */
  datatype Link = Link(
    sender: SyncState,
    receiver: SyncState,
    ids: set<u64>,
    delivered: Option<Selection>,
    sent: seq<Snapshot>,
    applied: seq<Snapshot>,
    refused: bool)

  function NewLink(a: DeviceId, b: DeviceId, baseId: u64): Link {
    Link(NewSync(a, baseId), NewSync(b, baseId), {}, None, [], [], false)
  }

  function LinkStep(pf: Platform, max: nat, l: Link, c: Copy): (l': Link)
    requires |l.receiver.window.seen| == WINDOW
    ensures |l'.receiver.window.seen| == WINDOW
  {
    var (sender, r) := PrepareOutbound(pf, max, l.sender, c.snapshot, c.now);
    if r.Err? || r.value.None? then l.(sender := sender)
    else
      var sending := l.(sender := sender, sent := l.sent + [c.snapshot]);
      if c.lost then sending
      else
        match EncodeUpdate(r.value.value)
        case Err(_) => sending.(refused := true)
        case Ok(bytes) =>
          match DecodeUpdate(bytes)
          case Err(_) => sending.(refused := true)
          case Ok(u) => Deliver(pf, max, sending, u, l.sender.nextId)
  }

  function Deliver(pf: Platform, max: nat, l: Link, u: ClipboardUpdate, id: u64): (l': Link)
    requires |l.receiver.window.seen| == WINDOW
    ensures |l'.receiver.window.seen| == WINDOW
  {
    var (receiver, result) := AcceptInbound(pf, max, l.receiver, u);
    match result
    case Err(_) => l.(receiver := receiver, refused := true)
    case Ok(applied) =>
      l.(receiver := receiver, ids := l.ids + {id}, delivered := l.sender.resolver.current,
         applied := if applied.Some? then l.applied + [applied.value] else l.applied)
  }

  /** The receiver is never ahead of the sender, and holds exactly the last update delivered to it. */
  ghost predicate LinkSound(l: Link) {
    && Tracks(l.receiver.window, l.ids)
    && (forall id :: id in l.ids ==> id < l.sender.nextId)
    && !l.refused
    && l.receiver.resolver.current == l.delivered
    && l.receiver.resolver.clock <= l.sender.resolver.clock
    && (l.delivered.Some? ==> l.delivered.value.stamp.seq_ <= l.sender.resolver.clock)
  }

  /** Nothing has been lost so far: both hold the same, and everything sent was applied in order. */
  ghost predicate Mirrored(l: Link) {
    l.receiver.resolver.current == l.sender.resolver.current && l.applied == l.sent
  }

  ghost predicate CopyValid(pf: Platform, c: Copy) {
    Canonical(c.snapshot) && NamesValid(pf.utf8, c.snapshot)
  }

  lemma LinkStepSound(pf: Platform, max: nat, l: Link, c: Copy)
    requires Lawful(pf) && max <= MAX_TOTAL_BYTES && CopyValid(pf, c) && LinkSound(l)
    ensures LinkSound(LinkStep(pf, max, l, c))
    ensures Mirrored(l) && !c.lost ==> Mirrored(LinkStep(pf, max, l, c))
  {
    hide PrepareOutbound, Deliver, EncodeUpdate, DecodeUpdate, Lawful, Tracks, NamesFit, Canonical, NamesValid,
         OnInbound;
    var r := PrepareOutbound(pf, max, l.sender, c.snapshot, c.now).1;
    OutboundClock(pf, max, l.sender, c.snapshot, c.now);
    OutboundMovesResolverIffSent(pf, max, l.sender, c.snapshot, c.now);
    if r.Ok? && r.value.Some? && !c.lost {
      DeliveredStep(pf, max, l, c);
      EmittedSurvivesWire(pf, max, l.sender, c.snapshot, c.now);
    }
  }

  /** Delivering an update the sender has just stamped. */
  lemma DeliveredStep(pf: Platform, max: nat, l: Link, c: Copy)
    requires Lawful(pf) && max <= MAX_TOTAL_BYTES && CopyValid(pf, c) && LinkSound(l)
    requires PrepareOutbound(pf, max, l.sender, c.snapshot, c.now).1.Ok?
             && PrepareOutbound(pf, max, l.sender, c.snapshot, c.now).1.value.Some?
    ensures var (sender, r) := PrepareOutbound(pf, max, l.sender, c.snapshot, c.now);
            var l' := Deliver(pf, max, l.(sender := sender, sent := l.sent + [c.snapshot]), r.value.value,
                              l.sender.nextId);
            LinkSound(l') && (Mirrored(l) ==> Mirrored(l'))
  {
    hide PrepareOutbound, AcceptInbound, OnInbound, EncodeUpdate, DecodeUpdate, Lawful, Tracks, NamesFit, Canonical,
         NamesValid;
    var (sender, r) := PrepareOutbound(pf, max, l.sender, c.snapshot, c.now);
    OutboundClock(pf, max, l.sender, c.snapshot, c.now);
    OutboundMovesResolverIffSent(pf, max, l.sender, c.snapshot, c.now);
    EmittedSurvivesWire(pf, max, l.sender, c.snapshot, c.now);
    EmittedAcceptedIff(pf, max, l.sender, c.snapshot, c.now, l.receiver, l.ids);
    NewerIsHeld(l.receiver.resolver, Selection(StampOf(r.value.value), pf.fingerprint(c.snapshot)));
  }

  /** An update stamped after the held one is held next, and applied unless it is what is held already. */
  lemma NewerIsHeld(r: Resolver, incoming: Selection)
    requires r.current.Some? ==> r.current.value.stamp.seq_ < incoming.stamp.seq_
    requires r.clock <= incoming.stamp.seq_
    ensures var (r', decision) := OnInbound(r, incoming);
            && r'.current == Some(incoming) && r'.clock == incoming.stamp.seq_
            && (decision.Apply? <==> !Holds(r, incoming.content))
  {
  }

  /** A sent update is stamped after everything the sender knew, and is not what the sender already held. */
  lemma OutboundClock(pf: Platform, max: nat, st: SyncState, s: Snapshot, now: u64)
    ensures var (st', r) := PrepareOutbound(pf, max, st, s, now);
            && st.resolver.clock <= st'.resolver.clock
            && (r.Ok? && r.value.Some? ==>
                  && r.value.value.seq_ > st.resolver.clock && st'.resolver.clock == r.value.value.seq_
                  && !Holds(st.resolver, pf.fingerprint(s)))
  {
    hide Encode, Compress, Seal;
  }

  function LinkRun(pf: Platform, max: nat, l: Link, copies: seq<Copy>): (l': Link)
    requires |l.receiver.window.seen| == WINDOW
    ensures |l'.receiver.window.seen| == WINDOW
    decreases |copies|
  {
    if copies == [] then l
    else LinkRun(pf, max, LinkStep(pf, max, l, copies[0]), copies[1..])
  }

  lemma {:induction false} LinkRunSound(pf: Platform, max: nat, l: Link, copies: seq<Copy>)
    requires Lawful(pf) && max <= MAX_TOTAL_BYTES && LinkSound(l) && forall c :: c in copies ==> CopyValid(pf, c)
    ensures LinkSound(LinkRun(pf, max, l, copies))
    ensures Mirrored(l) && (forall c :: c in copies ==> !c.lost) ==> Mirrored(LinkRun(pf, max, l, copies))
    decreases |copies|
  {
    if copies != [] {
      LinkStepSound(pf, max, l, copies[0]);
      assert forall c :: c in copies[1..] ==> c in copies;
      LinkRunSound(pf, max, LinkStep(pf, max, l, copies[0]), copies[1..]);
    }
  }

  /**
   * Over any run of copies, with any updates lost on the way, no delivered update is ever refused and the receiver
   * holds exactly the last one delivered; with none lost, its pasteboard saw exactly what was sent, in order.
   */
  lemma LinkDeliversFaithfully(pf: Platform, max: nat, a: DeviceId, b: DeviceId, baseId: u64, copies: seq<Copy>)
    requires Lawful(pf) && max <= MAX_TOTAL_BYTES && forall c :: c in copies ==> CopyValid(pf, c)
    ensures var l := LinkRun(pf, max, NewLink(a, b, baseId), copies);
            && !l.refused && l.receiver.resolver.current == l.delivered
            && ((forall c :: c in copies ==> !c.lost) ==>
                  l.applied == l.sent && l.receiver.resolver.current == l.sender.resolver.current)
  {
    LinkRunSound(pf, max, NewLink(a, b, baseId), copies);
  }

  // ---------------------------------------------------------------- the state machine as the program holds it

  class ClipboardSync {
    const pf: Platform
    const maxPayload: nat
    const resolver: ConflictResolver
    const cipher: SessionClipboardCipher

    ghost predicate Valid()
      reads cipher
    {
      cipher.Valid() && cipher.seal == pf.seal && cipher.open == pf.open
    }

    function View(): (st: SyncState)
      requires Valid()
      reads resolver, cipher, cipher.seen
      ensures |st.window.seen| == WINDOW
    {
      SyncState(resolver.View(), cipher.nextId, cipher.Window())
    }

    constructor (pf: Platform, local: DeviceId, baseId: u64, maxPayload: nat)
      ensures Valid() && fresh(resolver) && fresh(cipher) && fresh(cipher.seen)
      ensures this.pf == pf && this.maxPayload == maxPayload && View() == NewSync(local, baseId)
    {
      this.pf, this.maxPayload := pf, maxPayload;
      resolver := new ConflictResolver(local);
      cipher := new SessionClipboardCipher(pf.seal, pf.open, baseId);
    }

    method Outbound(s: Snapshot, now: u64) returns (r: Result<Option<ClipboardUpdate>, ClipboardError>)
      requires Valid()
      modifies resolver, cipher`nextId
      ensures Valid() && (View(), r) == PrepareOutbound(pf, maxPayload, old(View()), s, now)
    {
      hide Encode, Seal, OnLocalChange;
      var fingerprint := pf.fingerprint(s);
      if pf.concealed(s) || Holds(resolver.View(), fingerprint) {
        return Ok(None);
      }
      var encoded := EncodeSnapshot(s);
      if encoded.Err? {
        return Err(encoded.error);
      }
      if |encoded.value| > maxPayload {
        return Err(TooLarge(|encoded.value|, maxPayload));
      }
      var algorithm := pf.choose(s);
      var compressed := Compress(pf, algorithm, encoded.value);
      if compressed.Err? {
        return Err(compressed.error);
      }
      var payload := cipher.SealNext(compressed.value);
      if payload.Err? {
        return Err(payload.error);
      }
      if |payload.value| > maxPayload {
        return Err(TooLarge(|payload.value|, maxPayload));
      }
      ExhaustionIsFinal(resolver.View(), fingerprint, now);
      var decision := resolver.LocalChange(fingerprint, now);
      match decision
      case Suppress => return Ok(None);
      case ClockExhausted => return Err(ClockExhaustedError);
      case Broadcast(stamp) =>
        return Ok(Some(ClipboardUpdate(stamp.origin, stamp.seq_, stamp.atMillis, algorithm, payload.value)));
    }

    method Inbound(u: ClipboardUpdate) returns (r: Result<Option<Snapshot>, ClipboardError>)
      requires Valid()
      modifies resolver, cipher`highest, cipher.seen
      ensures Valid() && cipher.seen == old(cipher.seen) && (View(), r) == AcceptInbound(pf, maxPayload, old(View()), u)
    {
      hide Decode, Open, DecompressBounded, OnInbound;
      if |u.payload| > maxPayload {
        return Err(TooLarge(|u.payload|, maxPayload));
      }
      var compressed := cipher.OpenNext(u.payload);
      if compressed.Err? {
        return Err(compressed.error);
      }
      var encoded := DecompressBounded(pf, u.compression, compressed.value, maxPayload);
      if encoded.Err? {
        return Err(encoded.error);
      }
      var s := DecodeSnapshot(pf.utf8, encoded.value);
      if s.Err? {
        return Err(s.error);
      }
      var decision := resolver.Inbound(Selection(StampOf(u), pf.fingerprint(s.value)));
      return Ok(if decision.Apply? then Some(s.value) else None);
    }
  }
}
