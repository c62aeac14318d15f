/**
 * Any number of devices, each with one resolver and one pasteboard, exchanging
 * broadcasts that may arrive in any order, repeatedly, or not at all:
 * crates/clipboard/src/engine.rs:56-122, sync.rs:171-248, conflict.rs:105-160.
 *
 * Content is represented by its fingerprint.  A poll or a delivery may be
 * refused (concealed or oversized content, a cipher or codec error); pasteboard
 * reads and writes are faithful and succeed.
 */
module ClipboardNetwork {
  import opened Wrappers
  import opened ConflictResolver

  /**
   * `seen` is what the device minted or accepted, `copies` the user's copies on
   * it, `broadcasts` how often it broadcast.
   */
  datatype Device = Device(resolver: Resolver, pasteboard: Option<Fingerprint>, seen: set<Selection>, copies: nat,
                           broadcasts: nat)

  datatype Network = Network(devices: map<DeviceId, Device>, sent: set<Selection>)

  datatype Action =
    | UserCopies(device: DeviceId, content: Fingerprint)
    | Polls(device: DeviceId, now: u64, refused: bool)
    | Delivers(device: DeviceId, update: Selection, refused: bool)

  /** Reading the pasteboard and broadcasting it unless it is what the device already holds. */
  function PollLocal(d: Device, now: u64, refused: bool): (Device, Option<Selection>) {
    if d.pasteboard.None? || refused then (d, None)
    else
      var content := d.pasteboard.value;
      var (r, decision) := OnLocalChange(d.resolver, content, now);
      match decision
      case Broadcast(stamp) =>
        var minted := Selection(stamp, content);
        (d.(resolver := r, seen := d.seen + {minted}, broadcasts := d.broadcasts + 1), Some(minted))
      case _ => (d.(resolver := r), None)
  }

  /** Accepting a broadcast and, if it is news, writing it to the pasteboard. */
  function ApplyRemote(d: Device, update: Selection, refused: bool): Device {
    if refused then d
    else
      var (r, decision) := OnInbound(d.resolver, update);
      var d' := d.(resolver := r, seen := d.seen + {update});
      if decision == Apply then d'.(pasteboard := Some(update.content)) else d'
  }

  function Step(n: Network, a: Action): Network {
    if a.device !in n.devices then n
    else
      var d := n.devices[a.device];
      match a
      case UserCopies(id, content) =>
        n.(devices := n.devices[id := d.(pasteboard := Some(content), copies := d.copies + 1)])
      case Polls(id, now, refused) =>
        var (d', minted) := PollLocal(d, now, refused);
        Network(n.devices[id := d'], if minted.Some? then n.sent + {minted.value} else n.sent)
      case Delivers(id, update, refused) =>
        if update !in n.sent then n else n.(devices := n.devices[id := ApplyRemote(d, update, refused)])
  }

  function Run(n: Network, actions: seq<Action>): Network
    decreases |actions|
  {
    if actions == [] then n else Step(Run(n, actions[..|actions| - 1]), actions[|actions| - 1])
  }

  /** Every device starts with an empty pasteboard and nothing held. */
  function Start(ids: set<DeviceId>): Network {
    Network(map id | id in ids :: Device(NewResolver(id), None, {}, 0, 0), {})
  }

  // ---------------------------------------------------------------- one device as the program holds it

  /** The engine over its resolver and pasteboard; the ghost fields are what the results below count. */
  class ClipboardEngine {
    const resolver: ConflictResolver
    var pasteboard: Option<Fingerprint>
    ghost var seen: set<Selection>
    ghost var copies: nat
    ghost var broadcasts: nat

    ghost function View(): Device
      reads this, resolver
    {
      Device(resolver.View(), pasteboard, seen, copies, broadcasts)
    }

    constructor (local: DeviceId)
      ensures fresh(resolver) && View() == Device(NewResolver(local), None, {}, 0, 0)
    {
      resolver := new ConflictResolver(local);
      pasteboard, seen, copies, broadcasts := None, {}, 0, 0;
    }

    /** Read the pasteboard and, if it holds news, mint the update to broadcast. */
    method Poll(now: u64, refused: bool) returns (minted: Option<Selection>)
      modifies this, resolver
      ensures (View(), minted) == PollLocal(old(View()), now, refused)
    {
      if pasteboard.None? || refused {
        return None;
      }
      var content := pasteboard.value;
      var decision := resolver.LocalChange(content, now);
      if !decision.Broadcast? {
        return None;
      }
      var update := Selection(decision.stamp, content);
      seen, broadcasts := seen + {update}, broadcasts + 1;
      return Some(update);
    }

    /** Take in a broadcast and write it to the pasteboard if it is news. */
    method Apply(update: Selection, refused: bool) returns (applied: bool)
      modifies this, resolver
      ensures View() == ApplyRemote(old(View()), update, refused)
      ensures applied <==> !refused && OnInbound(old(resolver.View()), update).1.Apply?
    {
      if refused {
        return false;
      }
      var decision := resolver.Inbound(update);
      seen := seen + {update};
      if !decision.Apply? {
        return false;
      }
      pasteboard := Some(update.content);
      return true;
    }
  }

  // ---------------------------------------------------------------- invariant

  function HeldContent(d: Device): Option<Fingerprint> {
    if d.resolver.current.Some? then Some(d.resolver.current.value.content) else None
  }

  /** The pasteboard shows something the device has not broadcast or received last: a copy not yet dealt with. */
  predicate CopyPending(d: Device) {
    d.pasteboard != HeldContent(d)
  }

  ghost predicate DeviceSound(id: DeviceId, d: Device, sent: set<Selection>) {
    && d.resolver.local == id
    && d.seen <= sent
    && Represents(d.resolver, d.seen)
    && d.broadcasts + (if CopyPending(d) then 1 else 0) <= d.copies
    && (forall s :: s in sent && s.stamp.origin == id ==> s in d.seen)
  }

  ghost predicate Sound(n: Network) {
    && StampsIdentify(n.sent)
    && (forall id :: id in n.devices ==> DeviceSound(id, n.devices[id], n.sent))
    && (forall s :: s in n.sent ==> s.stamp.origin in n.devices)
  }

  /** A poll that broadcasts had a copy pending, mints a stamp nobody has sent, and leaves nothing pending. */
  lemma PollDevice(id: DeviceId, d: Device, sent: set<Selection>, now: u64, refused: bool)
    requires DeviceSound(id, d, sent)
    ensures var (d', minted) := PollLocal(d, now, refused);
            match minted
            case None => d' == d
            case Some(news) =>
              && CopyPending(d) && !CopyPending(d') && d'.broadcasts == d.broadcasts + 1 && d'.copies == d.copies
              && news.stamp.origin == id && d'.seen == d.seen + {news} && d'.resolver.local == id
              && Represents(d'.resolver, d'.seen)
              && (forall s :: s in sent ==> s.stamp != news.stamp)
  {
    var (d', minted) := PollLocal(d, now, refused);
    if minted.Some? {
      MintedRepresents(d.resolver, d.seen, d.pasteboard.value, now);
      hide Represents;
      forall s | s in sent ensures s.stamp != minted.value.stamp {
        assert s.stamp.origin == id ==> s in d.seen;
      }
    }
  }

  /** Another device's new broadcast changes nothing for this one. */
  lemma OthersUnaffected(id: DeviceId, d: Device, sent: set<Selection>, news: Selection)
    requires DeviceSound(id, d, sent) && news.stamp.origin != id
    ensures DeviceSound(id, d, sent + {news})
  {
    hide Represents;
  }

  lemma PollSound(n: Network, id: DeviceId, now: u64, refused: bool)
    requires Sound(n) && id in n.devices
    ensures Sound(Step(n, Polls(id, now, refused)))
  {
    hide PollLocal, Represents, CopyPending;
    var d := n.devices[id];
    PollDevice(id, d, n.sent, now, refused);
    var (d', minted) := PollLocal(d, now, refused);
    var t := Step(n, Polls(id, now, refused));
    if minted.None? {
      assert t.devices == n.devices;
    } else {
      assert t.sent == n.sent + {minted.value};
      assert DeviceSound(id, d', t.sent);
      forall other | other in t.devices ensures DeviceSound(other, t.devices[other], t.sent) {
        if other != id {
          OthersUnaffected(other, n.devices[other], n.sent, minted.value);
        }
      }
    }
  }

  lemma ApplyDevice(id: DeviceId, d: Device, sent: set<Selection>, update: Selection, refused: bool)
    requires DeviceSound(id, d, sent) && StampsIdentify(sent) && update in sent
    ensures DeviceSound(id, ApplyRemote(d, update, refused), sent)
    ensures CopyPending(ApplyRemote(d, update, refused)) ==> CopyPending(d)
    ensures ApplyRemote(d, update, refused).broadcasts == d.broadcasts
  {
    if !refused {
      assert d.seen + {update} <= sent;
      assert StampsIdentify(d.seen + {update});
      InboundRepresents(d.resolver, d.seen, update);
    }
    hide Represents, StampsIdentify;
  }

  lemma DeliverSound(n: Network, id: DeviceId, update: Selection, refused: bool)
    requires Sound(n) && id in n.devices
    ensures Sound(Step(n, Delivers(id, update, refused)))
  {
    hide ApplyRemote, DeviceSound;
    if update in n.sent {
      ApplyDevice(id, n.devices[id], n.sent, update, refused);
    }
  }

  lemma CopySound(n: Network, id: DeviceId, content: Fingerprint)
    requires Sound(n) && id in n.devices
    ensures Sound(Step(n, UserCopies(id, content)))
  {
    hide Represents;
    var d := n.devices[id];
    var d' := d.(pasteboard := Some(content), copies := d.copies + 1);
    assert DeviceSound(id, d, n.sent);
    assert DeviceSound(id, d', n.sent);
    hide DeviceSound;
  }

  lemma StepSound(n: Network, a: Action)
    requires Sound(n)
    ensures Sound(Step(n, a)) && Step(n, a).devices.Keys == n.devices.Keys
  {
    hide Sound;
    if a.device in n.devices {
      match a
      case UserCopies(id, content) => CopySound(n, id, content);
      case Polls(id, now, refused) => PollSound(n, id, now, refused);
      case Delivers(id, update, refused) => DeliverSound(n, id, update, refused);
    }
  }

  lemma {:induction false} RunSound(n: Network, actions: seq<Action>)
    requires Sound(n)
    ensures Sound(Run(n, actions)) && Run(n, actions).devices.Keys == n.devices.Keys
    decreases |actions|
  {
    if actions != [] {
      RunSound(n, actions[..|actions| - 1]);
      StepSound(Run(n, actions[..|actions| - 1]), actions[|actions| - 1]);
    }
  }

  // ---------------------------------------------------------------- main results

  lemma NewestIsUnique(a: Selection, b: Selection, seen: set<Selection>)
    requires StampsIdentify(seen) && IsNewest(a, seen) && IsNewest(b, seen)
    ensures a == b
  {
    StampOrderIsStrictTotal(a.stamp, b.stamp, a.stamp);
  }

  /**
   * Convergence: devices that have taken in every broadcast, in whatever order
   * and however often, hold the same selection, and show it on their pasteboards
   * unless the user has copied something since.
   */
  lemma DevicesConverge(ids: set<DeviceId>, actions: seq<Action>, a: DeviceId, b: DeviceId)
    requires a in ids && b in ids
    ensures var n := Run(Start(ids), actions);
            && a in n.devices && b in n.devices
            && var da, db := n.devices[a], n.devices[b];
               da.seen == n.sent && db.seen == n.sent ==>
                 && da.resolver.current == db.resolver.current
                 && (!CopyPending(da) && !CopyPending(db) ==> da.pasteboard == db.pasteboard)
  {
    RunSound(Start(ids), actions);
    var n := Run(Start(ids), actions);
    assert a in Start(ids).devices && b in Start(ids).devices;
    var da, db := n.devices[a], n.devices[b];
    if da.seen == n.sent && db.seen == n.sent && n.sent != {} {
      NewestIsUnique(da.resolver.current.value, db.resolver.current.value, n.sent);
    }
  }

  /** Stamps are unique across the whole network, and each belongs to the device that minted it. */
  lemma StampsAreUnique(ids: set<DeviceId>, actions: seq<Action>)
    ensures var n := Run(Start(ids), actions);
            && StampsIdentify(n.sent)
            && forall s :: s in n.sent ==> s.stamp.origin in n.devices && s in n.devices[s.stamp.origin].seen
  {
    RunSound(Start(ids), actions);
  }

  /** No ping-pong: over every run no device broadcasts more often than its user copied. */
  lemma NoPingPong(ids: set<DeviceId>, actions: seq<Action>, id: DeviceId)
    requires id in ids
    ensures var n := Run(Start(ids), actions);
            id in n.devices && n.devices[id].broadcasts <= n.devices[id].copies
  {
    RunSound(Start(ids), actions);
    assert id in Start(ids).devices;
  }

  /** Broadcasts made plus the one a pending copy may still cause. */
  function Exposure(n: Network, id: DeviceId): nat
    requires id in n.devices
  {
    n.devices[id].broadcasts + (if CopyPending(n.devices[id]) then 1 else 0)
  }

  lemma QuietStep(n: Network, a: Action, id: DeviceId)
    requires Sound(n) && id in n.devices && !a.UserCopies?
    ensures id in Step(n, a).devices && Exposure(Step(n, a), id) <= Exposure(n, id)
  {
    hide PollLocal, ApplyRemote, Represents, CopyPending;
    if a.device == id {
      match a
      case Polls(_, now, refused) => PollDevice(id, n.devices[id], n.sent, now, refused);
      case Delivers(_, update, refused) =>
        if update in n.sent {
          ApplyDevice(id, n.devices[id], n.sent, update, refused);
        }
    }
  }

  /**
   * Without further copies, deliveries and polls in any number cause at most the one broadcast a pending copy was
   * owed.
   */
  lemma {:induction false} QuietNetworkStopsBroadcasting(n: Network, actions: seq<Action>, id: DeviceId)
    requires Sound(n) && id in n.devices
    requires forall a :: a in actions ==> !a.UserCopies?
    ensures id in Run(n, actions).devices && Exposure(Run(n, actions), id) <= Exposure(n, id)
    decreases |actions|
  {
    hide Sound, Step, Exposure;
    if actions != [] {
      var before := actions[..|actions| - 1];
      QuietNetworkStopsBroadcasting(n, before, id);
      RunSound(n, before);
      assert actions[|actions| - 1] in actions;
      QuietStep(Run(n, before), actions[|actions| - 1], id);
    }
  }

  // ---------------------------------------------------------------- every copy is broadcast, every broadcast taken in

  /** A poll broadcasts exactly a pending copy that nothing refuses, as long as the clock lasts, and settles it. */
  lemma PollBroadcastsIff(d: Device, now: u64, refused: bool)
    ensures var (d', minted) := PollLocal(d, now, refused);
            && (minted.Some? <==> CopyPending(d) && d.pasteboard.Some? && !refused && d.resolver.clock as nat < U64_MAX)
            && (minted.Some? ==>
                  Some(minted.value.content) == d.pasteboard && !CopyPending(d') && minted.value in d'.seen)
  {
  }

  /** A broadcast taken in is seen, and the pasteboard then shows what is held if it did before. */
  lemma DeliveryIsTakenIn(d: Device, update: Selection)
    ensures var d' := ApplyRemote(d, update, false);
            && update in d'.seen && d.seen <= d'.seen
            && (!CopyPending(d) ==> !CopyPending(d'))
            && (d'.pasteboard != d.pasteboard ==> d'.pasteboard == Some(update.content))
            && (HeldContent(d') != HeldContent(d) ==> d'.pasteboard == Some(update.content) == HeldContent(d'))
  {
    AppliesIffContentChanges(d.resolver, update);
  }

  /** Over any run, delivering to a device whatever was sent makes it seen there. */
  lemma DeliveredIsSeen(n: Network, actions: seq<Action>, id: DeviceId, update: Selection)
    requires id in Run(n, actions).devices && update in Run(n, actions).sent
    ensures var t := Run(n, actions + [Delivers(id, update, false)]);
            && id in t.devices && update in t.devices[id].seen
            && Run(n, actions).devices[id].seen <= t.devices[id].seen && t.sent == Run(n, actions).sent
  {
    assert (actions + [Delivers(id, update, false)])[..|actions|] == actions;
    DeliveryIsTakenIn(Run(n, actions).devices[id], update);
    hide ApplyRemote;
  }
}
