/**
 * The cross-device layer over the history: which devices an entry may be
 * restored on.  crates/clipboard/src/timeline.rs:62-215.
 */
module ClipboardTimeline {
  import opened Wrappers
  import opened ClipboardHistory

  type Availability = map<Fingerprint, seq<DeviceId>>

  datatype Timeline = Timeline(entries: seq<Entry>, availability: Availability)

  datatype TimelineOp =
    | RecordCopy(snapshot: SnapshotSummary, origin: DeviceId, trusted: seq<DeviceId>, atMillis: nat)
    | ShareTo(target: Fingerprint, device: DeviceId)
    | PinEntry(target: Fingerprint)

  /** First occurrences, in order. */
  function Deduped(devices: seq<DeviceId>): (kept: seq<DeviceId>)
    ensures forall d :: d in kept <==> d in devices
    ensures forall i, j :: 0 <= i < j < |kept| ==> kept[i] != kept[j]
    decreases |devices|
  {
    if devices == [] then []
    else
      var before := Deduped(devices[..|devices| - 1]);
      var last := devices[|devices| - 1];
      assert devices == devices[..|devices| - 1] + [last];
      if last in before then before else before + [last]
  }

  /** Availability restricted to what the history still has. */
  function Retained(availability: Availability, entries: seq<Entry>): Availability {
    map f | f in availability && f in Fingerprints(entries) :: availability[f]
  }

  function TimelineStep(cfg: Config, share: bool, t: Timeline, op: TimelineOp): Timeline {
    match op
    case RecordCopy(s, origin, trusted, atMillis) =>
      if Refusal(cfg, s).Some? then t
      else
        var entries := Recorded(cfg, t.entries, s, origin, atMillis);
        var devices := Deduped([origin] + (if share then trusted else []));
        Timeline(entries, Retained(t.availability[s.fingerprint := devices], entries))
    case ShareTo(f, device) =>
      if Position(t.entries, f).None? then t
      else
        var devices := if f in t.availability then t.availability[f] else [];
        t.(availability := t.availability[f := if device in devices then devices else devices + [device]])
    case PinEntry(f) => t.(entries := WithPin(t.entries, f, true))
  }

  function TimelineRun(cfg: Config, share: bool, ops: seq<TimelineOp>): Timeline
    decreases |ops|
  {
    if ops == [] then Timeline([], map[])
    else TimelineStep(cfg, share, TimelineRun(cfg, share, ops[..|ops| - 1]), ops[|ops| - 1])
  }

  /** The devices shown for an entry; the alternative is the fallback for a missing index row. */
  function AvailableOn(t: Timeline, e: Entry): seq<DeviceId> {
    if e.snapshot.fingerprint in t.availability then t.availability[e.snapshot.fingerprint] else [e.origin]
  }

  function RestorePlan(t: Timeline, f: Fingerprint, target: DeviceId): Option<(DeviceId, SnapshotSummary)> {
    match Position(t.entries, f)
    case None => None
    case Some(i) =>
      if f in t.availability && target in t.availability[f] then Some((target, t.entries[i].snapshot)) else None
  }

  // ---------------------------------------------------------------- index and history agree

  ghost predicate NoDuplicates(devices: seq<DeviceId>) {
    forall i, j :: 0 <= i < j < |devices| ==> devices[i] != devices[j]
  }

  ghost predicate Indexed(t: Timeline) {
    && (forall f :: f in t.availability <==> f in Fingerprints(t.entries))
    && (forall f :: f in t.availability ==> NoDuplicates(t.availability[f]))
    && (forall i :: 0 <= i < |t.entries| ==> t.entries[i].origin in AvailableOn(t, t.entries[i]))
  }

  /** Every entry after a record is an earlier one, or the one just recorded with its new origin. */
  lemma RecordedEntries(cfg: Config, entries: seq<Entry>, s: SnapshotSummary, origin: DeviceId, atMillis: nat)
    requires Sound(cfg, entries) && Refusal(cfg, s).None?
    ensures var after := Recorded(cfg, entries, s, origin, atMillis);
            forall i :: 0 <= i < |after| ==>
              if after[i].snapshot.fingerprint == s.fingerprint then after[i].origin == origin else after[i] in entries
  {
    match Position(entries, s.fingerprint)
    case Some(i) =>
      assert forall k :: 0 <= k < |Without(entries, i)| ==> Without(entries, i)[k] in entries;
    case None =>
      var added := Entry(s, origin, atMillis, false);
      EvictionFindsAVictim(cfg, entries, added);
      var full := [added] + entries;
      assert forall k :: 0 <= k < |full| ==> full[k] == added || full[k] in entries;
      hide Evicted, OldestUnpinned;
  }

  lemma RecordIndexed(cfg: Config, share: bool, t: Timeline, op: TimelineOp)
    requires Sound(cfg, t.entries) && Indexed(t) && op.RecordCopy?
    ensures Indexed(TimelineStep(cfg, share, t, op))
  {
    if Refusal(cfg, op.snapshot).None? {
      var f := op.snapshot.fingerprint;
      RecordedEntries(cfg, t.entries, op.snapshot, op.origin, op.atMillis);
      var after := TimelineStep(cfg, share, t, op);
      hide Recorded, Position;
      forall i | 0 <= i < |after.entries|
        ensures after.entries[i].snapshot.fingerprint in after.availability
                && after.entries[i].origin in AvailableOn(after, after.entries[i])
      {
        var e := after.entries[i];
        assert Fingerprints(after.entries)[i] == e.snapshot.fingerprint;
        if e.snapshot.fingerprint == f {
          assert op.origin == ([op.origin] + (if share then op.trusted else []))[0];
        } else {
          var k :| 0 <= k < |t.entries| && t.entries[k] == e;
          assert Fingerprints(t.entries)[k] == e.snapshot.fingerprint;
        }
      }
    }
  }

  lemma PinIndexed(t: Timeline, f: Fingerprint)
    requires Indexed(t)
    ensures Indexed(t.(entries := WithPin(t.entries, f, true)))
  {
    var after := WithPin(t.entries, f, true);
    assert Fingerprints(after) == Fingerprints(t.entries);
    hide Position;
    forall i | 0 <= i < |after| ensures after[i].origin == t.entries[i].origin
    && after[i].snapshot == t.entries[i].snapshot {
    }
  }

  lemma ShareIndexed(cfg: Config, share: bool, t: Timeline, f: Fingerprint, device: DeviceId)
    requires Indexed(t)
    ensures Indexed(TimelineStep(cfg, share, t, ShareTo(f, device)))
  {
    FoundIffListed(t.entries, f);
  }

  lemma {:induction false} RunIndexed(cfg: Config, share: bool, ops: seq<TimelineOp>)
    ensures Sound(cfg, TimelineRun(cfg, share, ops).entries) && Indexed(TimelineRun(cfg, share, ops))
    decreases |ops|
  {
    if ops != [] {
      var before := TimelineRun(cfg, share, ops[..|ops| - 1]);
      RunIndexed(cfg, share, ops[..|ops| - 1]);
      match ops[|ops| - 1]
      case RecordCopy(s, origin, trusted, atMillis) =>
        RecordIndexed(cfg, share, before, ops[|ops| - 1]);
        ClipboardHistory.StepSound(cfg, before.entries, Record(s, origin, atMillis));
      case ShareTo(f, device) => ShareIndexed(cfg, share, before, f, device);
      case PinEntry(f) =>
        PinIndexed(before, f);
        ClipboardHistory.StepSound(cfg, before.entries, Pin(f));
    }
  }

  /**
   * After every sequence of operations the index has a row for exactly the
   * retained entries, rows hold no device twice, the fallback for a missing row
   * is never needed, and every retained entry can be restored on its origin.
   */
  lemma EveryEntryRestorableOnItsOrigin(cfg: Config, share: bool, ops: seq<TimelineOp>)
    ensures var t := TimelineRun(cfg, share, ops);
            && (forall f :: f in t.availability <==> f in Fingerprints(t.entries))
            && (forall f :: f in t.availability ==> NoDuplicates(t.availability[f]))
            && (forall i :: 0 <= i < |t.entries| ==>
                  var e := t.entries[i];
                  && e.snapshot.fingerprint in t.availability
                  && RestorePlan(t, e.snapshot.fingerprint, e.origin) == Some((e.origin, e.snapshot)))
  {
    RunIndexed(cfg, share, ops);
    var t := TimelineRun(cfg, share, ops);
    hide TimelineRun, Position, Distinct;
    forall i | 0 <= i < |t.entries|
      ensures var e := t.entries[i];
                e.snapshot.fingerprint in t.availability && Position(t.entries, e.snapshot.fingerprint) == Some(i)
    {
      assert Fingerprints(t.entries)[i] == t.entries[i].snapshot.fingerprint;
      PositionOfEntry(t.entries, i);
    }
  }

  // ---------------------------------------------------------------- who may restore what

  /**
   * The devices a content was last recorded for or has been shared with since:
   * its origin, the devices trusted then if new entries are shared, and those it
   * was shared with while the history had it.
   */
  ghost function Entitled(cfg: Config, share: bool, ops: seq<TimelineOp>, f: Fingerprint): set<DeviceId>
    decreases |ops|
  {
    if ops == [] then {}
    else
      var front := ops[..|ops| - 1];
      var before := Entitled(cfg, share, front, f);
      match ops[|ops| - 1]
      case RecordCopy(s, origin, trusted, _) =>
        if s.fingerprint != f || !Storable(cfg, s) then before
        else if share then {origin} + set d | d in trusted
        else {origin}
      case ShareTo(g, device) =>
        if g == f && f in Fingerprints(TimelineRun(cfg, share, front).entries) then before + {device} else before
      case PinEntry(_) => before
  }

  lemma RowAfterRecord(cfg: Config, share: bool, t: Timeline, op: TimelineOp, f: Fingerprint)
    requires op.RecordCopy? && Storable(cfg, op.snapshot)
    ensures var t' := TimelineStep(cfg, share, t, op);
            f in t'.availability && f in Fingerprints(t'.entries) ==>
              if op.snapshot.fingerprint == f
              then forall d :: d in t'.availability[f] <==> d == op.origin || (share && d in op.trusted)
              else f in t.availability && t'.availability[f] == t.availability[f]
  {
    hide Recorded;
  }

  lemma RowAfterShare(cfg: Config, share: bool, t: Timeline, g: Fingerprint, device: DeviceId, f: Fingerprint)
    requires f in t.availability && (f in t.availability <==> f in Fingerprints(t.entries))
    ensures var t' := TimelineStep(cfg, share, t, ShareTo(g, device));
            && f in t'.availability
            && forall d :: d in t'.availability[f] <==> d in t.availability[f] || (f == g && d == device)
  {
    FoundIffListed(t.entries, f);
  }

  /** Only a record makes a new row, and what is refused or pinned changes none. */
  lemma RowBefore(cfg: Config, share: bool, t: Timeline, op: TimelineOp, f: Fingerprint)
    requires Indexed(t) && f in TimelineStep(cfg, share, t, op).availability
    ensures !op.RecordCopy? || !Storable(cfg, op.snapshot) ==> f in t.availability
    ensures op.PinEntry? || (op.RecordCopy? && !Storable(cfg, op.snapshot)) ==>
              TimelineStep(cfg, share, t, op).availability == t.availability
  {
    hide Recorded;
    if op.ShareTo? {
      FoundIffListed(t.entries, op.target);
    }
  }

  /** A row of the index names exactly the entitled devices. */
  lemma {:induction false} RowIsEntitled(cfg: Config, share: bool, ops: seq<TimelineOp>, f: Fingerprint)
    requires f in TimelineRun(cfg, share, ops).availability
    ensures forall d :: d in TimelineRun(cfg, share, ops).availability[f] <==> d in Entitled(cfg, share, ops, f)
    decreases |ops|
  {
    hide TimelineStep, Position, Sound, NoDuplicates, AvailableOn;
    var front, op := ops[..|ops| - 1], ops[|ops| - 1];
    var before := TimelineRun(cfg, share, front);
    RunIndexed(cfg, share, front);
    RunIndexed(cfg, share, ops);
    RowBefore(cfg, share, before, op, f);
    if f in before.availability {
      RowIsEntitled(cfg, share, front, f);
    }
    if op.RecordCopy? && Storable(cfg, op.snapshot) {
      RowAfterRecord(cfg, share, before, op, f);
    } else if op.ShareTo? {
      RowAfterShare(cfg, share, before, op.target, op.device, f);
    }
  }

  /** After every sequence of operations, a device may restore exactly the retained contents it is entitled to. */
  lemma RestorableIffEntitled(cfg: Config, share: bool, ops: seq<TimelineOp>, f: Fingerprint, device: DeviceId)
    ensures var t := TimelineRun(cfg, share, ops);
            RestorePlan(t, f, device).Some? <==>
            f in Fingerprints(t.entries) && device in Entitled(cfg, share, ops, f)
  {
    var t := TimelineRun(cfg, share, ops);
    RunIndexed(cfg, share, ops);
    FoundIffListed(t.entries, f);
    if f in t.availability {
      RowIsEntitled(cfg, share, ops, f);
    }
    hide TimelineRun, Entitled, Position;
  }
  // ---------------------------------------------------------------- the timeline as the program holds it

  class SharedClipboardTimeline {
    const history: History
    const shareNewEntries: bool
    var availability: Availability

    constructor (cfg: Config, share: bool)
      ensures fresh(history) && history.cfg == cfg && shareNewEntries == share
      ensures View() == TimelineRun(cfg, share, [])
    {
      history := new History(cfg);
      shareNewEntries, availability := share, map[];
    }

    function View(): Timeline
      reads this, history
    {
      Timeline(history.entries, availability)
    }

    method RecordFrom(s: SnapshotSummary, origin: DeviceId, trusted: seq<DeviceId>, atMillis: nat)
        returns (r: Result<Fingerprint, SkipReason>)
      modifies this`availability, history`entries
      ensures View() == TimelineStep(history.cfg, shareNewEntries, old(View()),
                                     RecordCopy(s, origin, trusted, atMillis))
      ensures r.Ok? <==> Refusal(history.cfg, s).None?
    {
      r := history.RecordSnapshot(s, origin, atMillis);
      if r.Err? {
        return;
      }
      var devices := [origin];
      if shareNewEntries {
        devices := devices + trusted;
      } else {
        assert devices + [] == devices;
      }
      var kept := DedupDevices(devices);
      availability := availability[r.value := kept];
      RetainAvailabilityForHistory();
    }

    method RetainAvailabilityForHistory()
      modifies this`availability
      ensures availability == Retained(old(availability), history.entries)
    {
      var fingerprints := Fingerprints(history.entries);
      availability := map f | f in availability && f in fingerprints :: availability[f];
    }

    method ShareWith(f: Fingerprint, device: DeviceId) returns (shared: bool)
      modifies this`availability
      ensures View() == TimelineStep(history.cfg, shareNewEntries, old(View()), ShareTo(f, device))
      ensures shared <==> Position(history.entries, f).Some?
    {
      var pos := history.FindPosition(f);
      if pos.None? {
        return false;
      }
      var devices := if f in availability then availability[f] else [];
      if device !in devices {
        devices := devices + [device];
      }
      availability := availability[f := devices];
      return true;
    }
  }

  /** Keep each device once, where it first appears. */
  method DedupDevices(devices: seq<DeviceId>) returns (kept: seq<DeviceId>)
    ensures kept == Deduped(devices)
  {
    kept := [];
    for i := 0 to |devices|
      invariant kept == Deduped(devices[..i])
    {
      assert devices[..i + 1][..i] == devices[..i];
      if devices[i] !in kept {
        kept := kept + [devices[i]];
      }
    }
    assert devices[..|devices|] == devices;
  }
}
