/**
 * Last-writer-wins with echo suppression and a hybrid logical clock:
 * crates/clipboard/src/conflict.rs:22-161.
 */
module ConflictResolver {
  import opened Wrappers

  newtype u64 = x: int | 0 <= x <= 0xFFFF_FFFF_FFFF_FFFF

  datatype OriginStamp = OriginStamp(origin: DeviceId, seq_: u64, atMillis: u64) {

    /** Strictly newer under `(seq, at_millis, origin)`. */
    predicate Supersedes(other: OriginStamp) {
      || seq_ > other.seq_
      || (seq_ == other.seq_ && atMillis > other.atMillis)
      || (seq_ == other.seq_ && atMillis == other.atMillis && origin > other.origin)
    }
  }

  datatype Selection = Selection(stamp: OriginStamp, content: Fingerprint)

  datatype InboundDecision = Apply | IgnoreStale | IgnoreEcho

  datatype LocalDecision = Broadcast(stamp: OriginStamp) | Suppress | ClockExhausted

  datatype Resolver = Resolver(local: DeviceId, clock: u64, current: Option<Selection>)

  function NewResolver(local: DeviceId): Resolver {
    Resolver(local, 0, None)
  }

  predicate Holds(r: Resolver, content: Fingerprint) {
    r.current.Some? && r.current.value.content == content
  }

  function Max(a: u64, b: u64): u64 {
    if a < b then b else a
  }

  function OnLocalChange(r: Resolver, content: Fingerprint, now: u64): (Resolver, LocalDecision) {
    if Holds(r, content) then (r, Suppress)
    else if r.clock == 0xFFFF_FFFF_FFFF_FFFF then (r, ClockExhausted)
    else
      var next := Max(r.clock + 1, now);
      var stamp := OriginStamp(r.local, next, now);
      (Resolver(r.local, next, Some(Selection(stamp, content))), Broadcast(stamp))
  }

  function OnInbound(r: Resolver, incoming: Selection): (Resolver, InboundDecision) {
    var r' := r.(clock := Max(r.clock, incoming.stamp.seq_));
    match r.current
    case Some(held) =>
      if held.content == incoming.content then
        (if incoming.stamp.Supersedes(held.stamp) then r'.(current := Some(incoming)) else r', IgnoreEcho)
      else if held.stamp.Supersedes(incoming.stamp) then (r', IgnoreStale)
      else (r'.(current := Some(incoming)), Apply)
    case None => (r'.(current := Some(incoming)), Apply)
  }

  /** The resolver as the program holds it. */
  class ConflictResolver {
    const local: DeviceId
    var clock: u64
    var current: Option<Selection>

    constructor (local: DeviceId)
      ensures View() == NewResolver(local)
    {
      this.local := local;
      clock, current := 0, None;
    }

    function View(): Resolver
      reads this
    {
      Resolver(local, clock, current)
    }

    method LocalChange(content: Fingerprint, now: u64) returns (decision: LocalDecision)
      modifies this
      ensures (View(), decision) == OnLocalChange(old(View()), content, now)
    {
      if current.Some? && current.value.content == content {
        return Suppress;
      }
      if clock == 0xFFFF_FFFF_FFFF_FFFF {
        return ClockExhausted;
      }
      clock := Max(clock + 1, now);
      var stamp := OriginStamp(local, clock, now);
      current := Some(Selection(stamp, content));
      return Broadcast(stamp);
    }

    method Inbound(incoming: Selection) returns (decision: InboundDecision)
      modifies this
      ensures (View(), decision) == OnInbound(old(View()), incoming)
    {
      clock := Max(clock, incoming.stamp.seq_);
      if current.Some? {
        if current.value.content == incoming.content {
          if incoming.stamp.Supersedes(current.value.stamp) {
            current := Some(incoming);
          }
          return IgnoreEcho;
        }
        if current.value.stamp.Supersedes(incoming.stamp) {
          return IgnoreStale;
        }
      }
      current := Some(incoming);
      return Apply;
    }
  }

  // ---------------------------------------------------------------- one resolver

  /** The stamp order is a strict total order. */
  lemma StampOrderIsStrictTotal(a: OriginStamp, b: OriginStamp, c: OriginStamp)
    ensures !a.Supersedes(a)
    ensures a != b <==> a.Supersedes(b) || b.Supersedes(a)
    ensures a.Supersedes(b) && b.Supersedes(c) ==> a.Supersedes(c)
  {
  }

  /** `best` is in the set and nothing in it is newer. */
  ghost predicate IsNewest(best: Selection, seen: set<Selection>) {
    best in seen && forall other :: other in seen ==> !other.stamp.Supersedes(best.stamp)
  }

  /** No stamp is carried by two different contents. */
  ghost predicate StampsIdentify(seen: set<Selection>) {
    forall a, b :: a in seen && b in seen && a.stamp == b.stamp ==> a == b
  }

  /** What a resolver holds after having minted or received exactly `seen`. */
  ghost predicate Represents(r: Resolver, seen: set<Selection>) {
    && (if seen == {} then r.current.None? else r.current.Some? && IsNewest(r.current.value, seen))
    && (forall s :: s in seen ==> s.stamp.seq_ <= r.clock)
  }

  /** Receiving adds to what was seen and leaves the newest of all held, whatever the order and however often. */
  lemma InboundRepresents(r: Resolver, seen: set<Selection>, incoming: Selection)
    requires Represents(r, seen) && StampsIdentify(seen + {incoming})
    ensures Represents(OnInbound(r, incoming).0, seen + {incoming})
  {
    var all := seen + {incoming};
    var r' := OnInbound(r, incoming).0;
    forall s | s in all ensures !s.stamp.Supersedes(r'.current.value.stamp) {
      if r.current.Some? {
        StampOrderIsStrictTotal(s.stamp, r.current.value.stamp, incoming.stamp);
        StampOrderIsStrictTotal(s.stamp, incoming.stamp, r.current.value.stamp);
        assert s == incoming || (s in seen && !s.stamp.Supersedes(r.current.value.stamp));
      }
    }
  }

  /** A minted stamp is newer than everything minted or received before, so the copy just made is what is held. */
  lemma MintedRepresents(r: Resolver, seen: set<Selection>, content: Fingerprint, now: u64)
    requires Represents(r, seen) && OnLocalChange(r, content, now).1.Broadcast?
    ensures var (r', decision) := OnLocalChange(r, content, now);
            var minted := Selection(decision.stamp, content);
            && (forall s :: s in seen ==> decision.stamp.Supersedes(s.stamp))
            && decision.stamp.origin == r.local && decision.stamp.seq_ > r.clock
            && r'.current == Some(minted) && Represents(r', seen + {minted})
  {
  }

  /** The held stamp never goes backwards, and the clock neither goes back nor wraps. */
  lemma HeldStampNeverRegresses(r: Resolver, content: Fingerprint, now: u64, incoming: Selection)
    requires r.current.Some? ==> r.current.value.stamp.seq_ <= r.clock
    ensures var local, remote := OnLocalChange(r, content, now).0, OnInbound(r, incoming).0;
            && r.clock <= local.clock && r.clock <= remote.clock
            && (r.current.Some? ==>
                  && local.current.Some? && !r.current.value.stamp.Supersedes(local.current.value.stamp)
                  && remote.current.Some? && !r.current.value.stamp.Supersedes(remote.current.value.stamp))
  {
  }

  /** A change is refused for exhaustion exactly when no larger sequence exists, and then nothing moves. */
  lemma ExhaustionIsFinal(r: Resolver, content: Fingerprint, now: u64)
    ensures OnLocalChange(r, content, now).1 == ClockExhausted <==> r.clock as nat == U64_MAX && !Holds(r, content)
    ensures !OnLocalChange(r, content, now).1.Broadcast? ==> OnLocalChange(r, content, now).0 == r
  {
  }

  /**
   * A change is stamped exactly when it is news and the clock can still move; the
   * stamp is this device's, at the present time, with the least sequence number
   * after everything known that is not before that time.
   */
  lemma MintsIff(r: Resolver, content: Fingerprint, now: u64)
    ensures var decision := OnLocalChange(r, content, now).1;
            && (decision.Broadcast? <==>
                r.clock as nat < U64_MAX && (r.current.Some? ==> r.current.value.content != content))
            && (decision.Suppress? <==> r.current.Some? && r.current.value.content == content)
            && (decision.Broadcast? ==>
                  && decision.stamp.origin == r.local && decision.stamp.atMillis == now
                  && r.clock < decision.stamp.seq_ && now <= decision.stamp.seq_
                  && (decision.stamp.seq_ == now || decision.stamp.seq_ as nat == r.clock as nat + 1))
  {
  }

  /** An update is applied exactly when it changes the content held, and every update moves the clock up to it. */
  lemma AppliesIffContentChanges(r: Resolver, incoming: Selection)
    ensures var (r', decision) := OnInbound(r, incoming);
            && r'.current.Some?
            && (decision.Apply? <==> r.current.None? || r.current.value.content != r'.current.value.content)
            && (decision.IgnoreStale? <==> r.current.Some? && r.current.value.stamp.Supersedes(incoming.stamp)
                                           && r.current.value.content != incoming.content)
            && (r'.clock == r.clock || r'.clock == incoming.stamp.seq_)
            && r.clock <= r'.clock && incoming.stamp.seq_ <= r'.clock
  {
    StampOrderIsStrictTotal(incoming.stamp, incoming.stamp, incoming.stamp);
  }
}
