/**
 * Which local copies are sent: exactly those that are neither concealed nor
 * held already, fit the format limits, and get through the compressor, the
 * cipher and the payload limit while ids and clock last:
 * crates/clipboard/src/sync.rs:171-216, crates/clipboard/src/content.rs:266-299.
 */
module ClipboardEmission {
  import opened Wrappers
  import opened WireBytes
  import opened ConflictResolver
  import opened ClipboardContent
  import opened ClipboardCodec
  import opened SessionCipher
  import opened ClipboardSync
  import D = ClipboardDialogue

  // ---------------------------------------------------------------- what encodes

  function MimeBytes(s: Snapshot): nat {
    if s == [] then 0 else |s[0].mime| + MimeBytes(s[1..])
  }

  /** Within 32 formats and 64 MiB of data, and every length fits its 32-bit field. */
  predicate Encodable(s: Snapshot) {
    && |s| <= 32
    && DataBytes(s) <= 64 * 1024 * 1024
    && forall c :: c in s ==> |c.mime| <= U32_MAX && |c.data| <= U32_MAX
  }

  /** A count, and for each format two lengths, its name and its data. */
  function EncodedLength(s: Snapshot): nat {
    4 + 8 * |s| + MimeBytes(s) + DataBytes(s)
  }

  lemma {:induction false} FormatsEncodeIff(s: Snapshot)
    ensures EncodeFormats(s).Ok? <==> forall c :: c in s ==> |c.mime| <= U32_MAX && |c.data| <= U32_MAX
    ensures EncodeFormats(s).Ok? ==> 4 + |EncodeFormats(s).value| == EncodedLength(s)
    decreases |s|
  {
    if s != [] {
      FormatsEncodeIff(s[1..]);
      assert s == [s[0]] + s[1..];
    }
  }

  /** A snapshot encodes exactly within the limits, to exactly its length. */
  lemma EncodesIff(s: Snapshot)
    ensures Encode(s).Ok? <==> Encodable(s)
    ensures Encode(s).Ok? ==> |Encode(s).value| == EncodedLength(s)
  {
    hide EncodeFormats, DataBytes, MimeBytes, Be32;
    FormatsEncodeIff(s);
    if |s| <= 32 { BigEndianLength(|s|); }
  }

  lemma BigEndianLength(n: nat)
    requires n <= U32_MAX
    ensures |Be32(n)| == 4
  {
  }

  // ---------------------------------------------------------------- what is emitted

  /** The copy repeats what the device holds. */
  predicate Repeats(pf: Platform, st: SyncState, s: Snapshot) {
    st.resolver.current.Some? && st.resolver.current.value.content == pf.fingerprint(s)
  }

  /** What the compressor makes of an encoding, when it manages. */
  ghost predicate CompressesTo(pf: Platform, s: Snapshot, encoded: Bytes, compressed: Bytes) {
    if pf.choose(s).Verbatim? then compressed == encoded else pf.deflate(encoded) == Ok(compressed)
  }

  /** The device still has an id, and under it the cipher makes this of the plaintext, within the limit. */
  predicate SealsTo(pf: Platform, max: nat, st: SyncState, compressed: Bytes, sealed: Bytes) {
    && st.nextId as nat < U64_MAX
    && pf.seal(st.nextId, compressed) == Ok(sealed)
    && 8 + |sealed| <= max
  }

  /** The stages the copy's bytes go through, each within the limit. */
  ghost predicate GoesThrough(pf: Platform, max: nat, st: SyncState, s: Snapshot, encoded: Bytes, compressed: Bytes,
                              sealed: Bytes)
  {
    && Encodable(s) && Encode(s) == Ok(encoded) && EncodedLength(s) <= max
    && CompressesTo(pf, s, encoded, compressed) && SealsTo(pf, max, st, compressed, sealed)
  }

  ghost predicate Emittable(pf: Platform, max: nat, st: SyncState, s: Snapshot) {
    && !pf.concealed(s) && !Repeats(pf, st, s)
    && (exists encoded, compressed, sealed :: GoesThrough(pf, max, st, s, encoded, compressed, sealed))
    && st.resolver.clock as nat < U64_MAX
  }

  lemma SealIs(seal: Crypt, nextId: u64, plain: Bytes)
    ensures Seal(seal, nextId, plain).1.Ok? <==> nextId as nat < U64_MAX && seal(nextId, plain).Ok?
    ensures Seal(seal, nextId, plain).1.Ok? ==>
              Seal(seal, nextId, plain).1.value == Be64(nextId) + seal(nextId, plain).value
              && |Seal(seal, nextId, plain).1.value| == 8 + |seal(nextId, plain).value|
  {
  }

  /** A sent copy's stages are those of its encoding. */
  lemma EmittableMeans(pf: Platform, max: nat, st: SyncState, s: Snapshot)
    ensures Emittable(pf, max, st, s) <==>
            && !pf.concealed(s) && !Repeats(pf, st, s) && Encode(s).Ok? && |Encode(s).value| <= max
            && Compress(pf, pf.choose(s), Encode(s).value).Ok?
            && Seal(pf.seal, st.nextId, Compress(pf, pf.choose(s), Encode(s).value).value).1.Ok?
            && |Seal(pf.seal, st.nextId, Compress(pf, pf.choose(s), Encode(s).value).value).1.value| <= max
            && st.resolver.clock as nat < U64_MAX
  {
    EncodesIff(s);
    hide Encode, Encodable, EncodedLength, Seal;
    if Encode(s).Ok? && Compress(pf, pf.choose(s), Encode(s).value).Ok? {
      var encoded := Encode(s).value;
      var compressed := Compress(pf, pf.choose(s), encoded).value;
      SealIs(pf.seal, st.nextId, compressed);
      var sealed := pf.seal(st.nextId, compressed);
      if sealed.Ok? {
        assert GoesThrough(pf, max, st, s, encoded, compressed, sealed.value) <==>
               EncodedLength(s) <= max && st.nextId as nat < U64_MAX && 8 + |sealed.value| <= max;
      }
    }
  }

  /**
   * A copy is sent exactly when it is emittable, and passed over in silence
   * exactly when it is concealed or repeats what is held; every other copy is an
   * error.
   */
  lemma SentIffEmittable(pf: Platform, max: nat, st: SyncState, s: Snapshot, now: u64)
    ensures var r := PrepareOutbound(pf, max, st, s, now).1;
            && (r.Ok? && r.value.Some? <==> Emittable(pf, max, st, s))
            && (r == Ok(None) <==> pf.concealed(s) || Repeats(pf, st, s))
  {
    EmittableMeans(pf, max, st, s);
    hide Encode, Compress, Seal, Emittable;
  }

  /** What is sent: the first later sequence number, the time it was made, and the sealed bytes behind their id. */
  lemma SentUpdateIs(pf: Platform, max: nat, st: SyncState, s: Snapshot, now: u64, encoded: Bytes, compressed: Bytes,
                     sealed: Bytes)
    requires Emittable(pf, max, st, s) && GoesThrough(pf, max, st, s, encoded, compressed, sealed)
    ensures PrepareOutbound(pf, max, st, s, now).1 ==
            Ok(Some(ClipboardUpdate(st.resolver.local, Max(st.resolver.clock + 1, now), now, pf.choose(s),
                                    Be64(st.nextId) + sealed)))
  {
    EmittableMeans(pf, max, st, s);
    SealIs(pf.seal, st.nextId, compressed);
    hide Encode, Seal, Emittable, Encodable, EncodedLength;
  }

  // ---------------------------------------------------------------- over a link

  lemma {:induction false} LinkRunStep(pf: Platform, max: nat, l: Link, copies: seq<Copy>, k: nat)
    requires |l.receiver.window.seen| == WINDOW && k < |copies|
    ensures LinkRun(pf, max, l, copies[..k + 1]) == LinkStep(pf, max, LinkRun(pf, max, l, copies[..k]), copies[k])
    decreases k
  {
    hide LinkStep;
    if k == 0 {
      assert copies[..1] == [copies[0]] && copies[..0] == [] && [copies[0]][1..] == [];
      assert LinkRun(pf, max, LinkStep(pf, max, l, copies[0]), []) == LinkStep(pf, max, l, copies[0]);
    } else {
      assert copies[..k + 1][1..] == copies[1..][..k] && copies[..k][1..] == copies[1..][..k - 1];
      LinkRunStep(pf, max, LinkStep(pf, max, l, copies[0]), copies[1..], k - 1);
    }
  }

  lemma DeliveryIsElsewhere(pf: Platform, max: nat, l: Link, u: ClipboardUpdate, id: u64)
    requires |l.receiver.window.seen| == WINDOW
    ensures Deliver(pf, max, l, u, id).sender == l.sender && Deliver(pf, max, l, u, id).sent == l.sent
  {
    hide AcceptInbound;
    var (receiver, result) := AcceptInbound(pf, max, l.receiver, u);
  }

  /** One copy on a link, seen at the sender. */
  lemma LinkStepAtSender(pf: Platform, max: nat, l: Link, c: Copy)
    requires |l.receiver.window.seen| == WINDOW
    ensures var (sender, r) := PrepareOutbound(pf, max, l.sender, c.snapshot, c.now);
            var l' := LinkStep(pf, max, l, c);
            && l'.sender == sender
            && l'.sent == if r.Ok? && r.value.Some? then l.sent + [c.snapshot] else l.sent
  {
    hide PrepareOutbound, Deliver, EncodeUpdate, DecodeUpdate;
    var (sender, r) := PrepareOutbound(pf, max, l.sender, c.snapshot, c.now);
    if r.Ok? && r.value.Some? && EncodeUpdate(r.value.value).Ok? {
      var decoded := DecodeUpdate(EncodeUpdate(r.value.value).value);
      if decoded.Ok? {
        DeliveryIsElsewhere(pf, max, l.(sender := sender, sent := l.sent + [c.snapshot]), decoded.value,
                            l.sender.nextId);
      }
    }
  }

  /** Over any run, the copy at any point is sent exactly when it is emittable then. */
  lemma LinkSendsIff(pf: Platform, max: nat, l: Link, copies: seq<Copy>, k: nat)
    requires |l.receiver.window.seen| == WINDOW && k < |copies|
    ensures var before, after := LinkRun(pf, max, l, copies[..k]), LinkRun(pf, max, l, copies[..k + 1]);
            after.sent == if Emittable(pf, max, before.sender, copies[k].snapshot)
                          then before.sent + [copies[k].snapshot] else before.sent
  {
    LinkRunStep(pf, max, l, copies, k);
    var before := LinkRun(pf, max, l, copies[..k]);
    SentIffEmittable(pf, max, before.sender, copies[k].snapshot, copies[k].now);
    LinkStepAtSender(pf, max, before, copies[k]);
    hide LinkRun, LinkStep, Emittable, PrepareOutbound;
  }

  /** The copies that change what the device holds: not concealed, and not the content of the one sent before. */
  function Changes(pf: Platform, copies: seq<Copy>, held: Option<Fingerprint>): seq<Snapshot>
    decreases |copies|
  {
    if copies == [] then []
    else
      var s := copies[0].snapshot;
      if pf.concealed(s) || held == Some(pf.fingerprint(s)) then Changes(pf, copies[1..], held)
      else [s] + Changes(pf, copies[1..], Some(pf.fingerprint(s)))
  }

  ghost predicate AlwaysSeals(pf: Platform, max: nat, compressed: Bytes) {
    forall id :: pf.seal(id, compressed).Ok? && 8 + |pf.seal(id, compressed).value| <= max
  }

  /** Under every id the copy's bytes get through and stay within the limit. */
  ghost predicate Ordinary(pf: Platform, max: nat, s: Snapshot) {
    && Encodable(s) && EncodedLength(s) <= max
    && exists encoded, compressed :: Encode(s) == Ok(encoded) && CompressesTo(pf, s, encoded, compressed)
                                     && AlwaysSeals(pf, max, compressed)
  }

  lemma OrdinaryIsEmittable(pf: Platform, max: nat, st: SyncState, s: Snapshot)
    requires Ordinary(pf, max, s) && st.nextId as nat < U64_MAX && st.resolver.clock as nat < U64_MAX
    ensures Emittable(pf, max, st, s) <==> !pf.concealed(s) && !Repeats(pf, st, s)
  {
    hide Encode, Encodable, EncodedLength, CompressesTo;
    var encoded, compressed :| Encode(s) == Ok(encoded) && CompressesTo(pf, s, encoded, compressed)
                               && AlwaysSeals(pf, max, compressed);
    assert GoesThrough(pf, max, st, s, encoded, compressed, pf.seal(st.nextId, compressed).value);
  }

  function HeldContent(st: SyncState): Option<Fingerprint> {
    if st.resolver.current.None? then None else Some(st.resolver.current.value.content)
  }

  /** Ids and clock last for `n` more copies. */
  predicate Lasts(st: SyncState, n: nat) {
    st.nextId as nat + n <= U64_MAX && st.resolver.clock as nat + n <= U64_MAX
  }

  /** What one ordinary copy does to the sender and to what was sent. */
  lemma OrdinaryStep(pf: Platform, max: nat, l: Link, c: Copy, n: nat)
    requires |l.receiver.window.seen| == WINDOW && Ordinary(pf, max, c.snapshot)
    requires Lasts(l.sender, n + 1) && c.now as nat + n <= U64_MAX
    ensures var l' := LinkStep(pf, max, l, c);
            var changes := !pf.concealed(c.snapshot) && HeldContent(l.sender) != Some(pf.fingerprint(c.snapshot));
            && Lasts(l'.sender, n)
            && l'.sent == l.sent + (if changes then [c.snapshot] else [])
            && HeldContent(l'.sender) == if changes then Some(pf.fingerprint(c.snapshot)) else HeldContent(l.sender)
  {
    OrdinaryIsEmittable(pf, max, l.sender, c.snapshot);
    SentIffEmittable(pf, max, l.sender, c.snapshot, c.now);
    OutboundMovesResolverIffSent(pf, max, l.sender, c.snapshot, c.now);
    EmittedClock(pf, max, l.sender, c.snapshot, c.now);
    LinkStepAtSender(pf, max, l, c);
    hide Emittable, Ordinary, PrepareOutbound, LinkStep;
  }

  lemma EmittedClock(pf: Platform, max: nat, st: SyncState, s: Snapshot, now: u64)
    ensures var clock := PrepareOutbound(pf, max, st, s, now).0.resolver.clock;
            clock as nat <= st.resolver.clock as nat + 1 || clock == now
  {
    hide Encode, Compress, Seal;
  }

  lemma {:induction false} OrdinaryRun(pf: Platform, max: nat, l: Link, copies: seq<Copy>)
    requires |l.receiver.window.seen| == WINDOW && Lasts(l.sender, |copies|)
    requires forall c :: c in copies ==> Ordinary(pf, max, c.snapshot) && c.now as nat + |copies| <= U64_MAX
    ensures LinkRun(pf, max, l, copies).sent == l.sent + Changes(pf, copies, HeldContent(l.sender))
    decreases |copies|
  {
    hide LinkStep, Ordinary, Lasts, HeldContent;
    if copies != [] {
      assert copies[0] in copies && forall c :: c in copies[1..] ==> c in copies;
      OrdinaryStep(pf, max, l, copies[0], |copies| - 1);
      OrdinaryRun(pf, max, LinkStep(pf, max, l, copies[0]), copies[1..]);
    }
  }

  /**
   * Over any run of ordinary copies on a fresh link, exactly the copies that
   * change what is held are sent, in order; with none lost, exactly those reach
   * the other pasteboard.
   */
  lemma EveryChangeIsSent(pf: Platform, max: nat, a: DeviceId, b: DeviceId, baseId: u64, copies: seq<Copy>)
    requires Lawful(pf) && max <= MAX_TOTAL_BYTES && baseId as nat + |copies| <= U64_MAX
    requires forall c :: c in copies ==> CopyValid(pf, c) && Ordinary(pf, max, c.snapshot)
                                         && c.now as nat + |copies| <= U64_MAX
    ensures var l := LinkRun(pf, max, NewLink(a, b, baseId), copies);
            && l.sent == Changes(pf, copies, None)
            && ((forall c :: c in copies ==> !c.lost) ==> l.applied == Changes(pf, copies, None))
  {
    hide Lawful, CopyValid, Ordinary, LinkRun;
    OrdinaryRun(pf, max, NewLink(a, b, baseId), copies);
    LinkDeliversFaithfully(pf, max, a, b, baseId, copies);
  }

  // ---------------------------------------------------------------- between two machines

  /** Over any run between two machines, a copy goes on its machine's wire exactly when it is emittable there. */
  lemma DialogueSendsIff(there: Platform, back: Platform, max: nat, d: D.Dialogue, actions: seq<D.Action>,
                         snapshot: Snapshot, now: u64)
    requires D.Running(there, max, d.right, d.toRight) && D.Running(back, max, d.left, d.toLeft)
    requires max <= MAX_TOTAL_BYTES
    ensures var before := D.Run(there, back, max, d, actions);
            var left := D.Run(there, back, max, d, actions + [D.Copies(D.Left, snapshot, now)]);
            var right := D.Run(there, back, max, d, actions + [D.Copies(D.Right, snapshot, now)]);
            && left.toRight.sent == before.toRight.sent + (if Emittable(there, max, before.left.sync, snapshot)
                                                           then [D.Sent(before.left.sync, snapshot, now)] else [])
            && right.toLeft.sent == before.toLeft.sent + (if Emittable(back, max, before.right.sync, snapshot)
                                                          then [D.Sent(before.right.sync, snapshot, now)] else [])
  {
    var before := D.Run(there, back, max, d, actions);
    var onLeft, onRight := D.Copies(D.Left, snapshot, now), D.Copies(D.Right, snapshot, now);
    assert (actions + [onLeft])[..|actions|] == actions && (actions + [onRight])[..|actions|] == actions;
    SentIffEmittable(there, max, before.left.sync, snapshot, now);
    SentIffEmittable(back, max, before.right.sync, snapshot, now);
    hide Emittable, PrepareOutbound, D.Copy, D.Arrive;
    D.CopyOutcome(there, max, before.left, before.toRight, snapshot, now);
    D.CopyOutcome(back, max, before.right, before.toLeft, snapshot, now);
  }
}
