/**
 * A bounded, most-recent-first history with dedup, pins and privacy rules:
 * crates/clipboard/src/history.rs:45-239.
 */
module ClipboardHistory {
  import opened Wrappers

  datatype Config = Config(capacity: nat, maxEntryBytes: nat, storeConcealed: bool)

  /** A selection as the history sees it; the fingerprint is its identity. */
  datatype SnapshotSummary = SnapshotSummary(fingerprint: Fingerprint, totalLen: nat, isEmpty: bool, isConcealed: bool)

  datatype Entry = Entry(snapshot: SnapshotSummary, origin: DeviceId, atMillis: nat, pinned: bool)

  datatype SkipReason = Empty | Concealed | TooLarge

  /** Why a selection is not stored, if it is not. */
  function Refusal(cfg: Config, s: SnapshotSummary): Option<SkipReason> {
    if s.isEmpty then Some(Empty)
    else if s.isConcealed && !cfg.storeConcealed then Some(Concealed)
    else if s.totalLen > cfg.maxEntryBytes then Some(TooLarge)
    else None
  }

  function Fingerprints(entries: seq<Entry>): seq<Fingerprint> {
    seq(|entries|, i requires 0 <= i < |entries| => entries[i].snapshot.fingerprint)
  }

  /** The first entry with a fingerprint. */
  function Position(entries: seq<Entry>, f: Fingerprint): (r: Option<nat>)
    ensures r.Some? ==> r.value < |entries| && entries[r.value].snapshot.fingerprint == f
    ensures r.Some? ==> forall i :: 0 <= i < r.value ==> entries[i].snapshot.fingerprint != f
    ensures r.None? <==> forall i :: 0 <= i < |entries| ==> entries[i].snapshot.fingerprint != f
  {
    if entries == [] then None
    else if entries[0].snapshot.fingerprint == f then Some(0)
    else match Position(entries[1..], f)
      case None => None
      case Some(i) => Some(i + 1)
  }

  /** The oldest unpinned entry. */
  function OldestUnpinned(entries: seq<Entry>): (r: Option<nat>)
    ensures r.Some? ==> r.value < |entries| && !entries[r.value].pinned
    ensures r.Some? ==> forall i :: r.value < i < |entries| ==> entries[i].pinned
    ensures r.None? <==> forall i :: 0 <= i < |entries| ==> entries[i].pinned
  {
    if entries == [] then None
    else if !entries[|entries| - 1].pinned then Some(|entries| - 1)
    else OldestUnpinned(entries[..|entries| - 1])
  }

  function Without(entries: seq<Entry>, i: nat): seq<Entry>
    requires i < |entries|
  {
    entries[..i] + entries[i + 1..]
  }

  function Evicted(entries: seq<Entry>, capacity: nat): seq<Entry>
    decreases |entries|
  {
    if |entries| <= capacity then entries
    else match OldestUnpinned(entries)
      case None => entries
      case Some(i) => Evicted(Without(entries, i), capacity)
  }

  datatype Op =
    | Record(snapshot: SnapshotSummary, origin: DeviceId, atMillis: nat)
    | Pin(target: Fingerprint)
    | Unpin(target: Fingerprint)
    | Remove(target: Fingerprint)
    | Clear

  function Recorded(cfg: Config, entries: seq<Entry>, s: SnapshotSummary, origin: DeviceId, atMillis: nat): seq<Entry> {
    if Refusal(cfg, s).Some? then entries
    else match Position(entries, s.fingerprint)
      case Some(i) => [entries[i].(atMillis := atMillis, origin := origin)] + Without(entries, i)
      case None => Evicted([Entry(s, origin, atMillis, false)] + entries, cfg.capacity)
  }

  function WithPin(entries: seq<Entry>, f: Fingerprint, pinned: bool): seq<Entry> {
    match Position(entries, f)
    case None => entries
    case Some(i) => entries[i := entries[i].(pinned := pinned)]
  }

  function OnlyPinned(entries: seq<Entry>): seq<Entry> {
    if entries == [] then []
    else OnlyPinned(entries[..|entries| - 1]) + (if entries[|entries| - 1].pinned then [entries[|entries| - 1]] else [])
  }

  function Step(cfg: Config, entries: seq<Entry>, op: Op): seq<Entry> {
    match op
    case Record(s, origin, atMillis) => Recorded(cfg, entries, s, origin, atMillis)
    case Pin(f) => WithPin(entries, f, true)
    case Unpin(f) => WithPin(entries, f, false)
    case Remove(f) => (match Position(entries, f) case None => entries case Some(i) => Without(entries, i))
    case Clear => OnlyPinned(entries)
  }

  function Run(cfg: Config, ops: seq<Op>): seq<Entry>
    decreases |ops|
  {
    if ops == [] then [] else Step(cfg, Run(cfg, ops[..|ops| - 1]), ops[|ops| - 1])
  }

  // ---------------------------------------------------------------- with pins allowed

  ghost predicate Distinct(entries: seq<Entry>) {
    forall i, j :: 0 <= i < j < |entries| ==> entries[i].snapshot.fingerprint != entries[j].snapshot.fingerprint
  }

  ghost predicate Sound(cfg: Config, entries: seq<Entry>) {
    |entries| <= cfg.capacity && Distinct(entries)
  }

  /** Inserting one unpinned entry costs at most one eviction, and that one always finds a victim. */
  lemma EvictionFindsAVictim(cfg: Config, entries: seq<Entry>, added: Entry)
    requires Sound(cfg, entries) && !added.pinned && Position(entries, added.snapshot.fingerprint).None?
    ensures var full := [added] + entries;
            && (|full| > cfg.capacity ==> OldestUnpinned(full).Some?)
            && Evicted(full, cfg.capacity) == (if |full| > cfg.capacity then Without(full, OldestUnpinned(full).value)
                 else full)
            && Sound(cfg, Evicted(full, cfg.capacity))
  {
    var full := [added] + entries;
    NewcomerStaysDistinct(entries, added);
    assert !full[0].pinned;
    hide Position, Distinct;
    if |full| > cfg.capacity {
      var i := OldestUnpinned(full).value;
      WithoutStaysDistinct(full, i);
      hide OldestUnpinned;
      assert |Without(full, i)| <= cfg.capacity;
    }
  }

  lemma NewcomerStaysDistinct(entries: seq<Entry>, added: Entry)
    requires Distinct(entries) && Position(entries, added.snapshot.fingerprint).None?
    ensures Distinct([added] + entries)
  {
  }

  lemma WithoutStaysDistinct(entries: seq<Entry>, i: nat)
    requires Distinct(entries) && i < |entries|
    ensures Distinct(Without(entries, i))
  {
  }

  lemma {:induction false} OnlyPinnedMembers(entries: seq<Entry>)
    ensures |OnlyPinned(entries)| <= |entries|
    ensures forall e :: e in OnlyPinned(entries) <==> e in entries && e.pinned
    ensures Distinct(entries) ==> Distinct(OnlyPinned(entries))
  {
    if entries != [] {
      var front := entries[..|entries| - 1];
      OnlyPinnedMembers(front);
      var kept := OnlyPinned(front);
      assert entries == front + [entries[|entries| - 1]];
      if Distinct(entries) {
        assert forall k :: 0 <= k < |kept| ==> kept[k] in front;
      }
    }
  }

  lemma StepSound(cfg: Config, entries: seq<Entry>, op: Op)
    requires Sound(cfg, entries)
    ensures Sound(cfg, Step(cfg, entries, op))
  {
    match op
    case Record(s, origin, atMillis) => RecordedSound(cfg, entries, s, origin, atMillis);
    case Pin(f) => WithPinSound(cfg, entries, f, true);
    case Unpin(f) => WithPinSound(cfg, entries, f, false);
    case Remove(f) =>
      if Position(entries, f).Some? {
        WithoutStaysDistinct(entries, Position(entries, f).value);
      }
      hide Distinct;
    case Clear => OnlyPinnedMembers(entries);
  }

  lemma RecordedSound(cfg: Config, entries: seq<Entry>, s: SnapshotSummary, origin: DeviceId, atMillis: nat)
    requires Sound(cfg, entries)
    ensures Sound(cfg, Recorded(cfg, entries, s, origin, atMillis))
  {
    if Refusal(cfg, s).None? {
      match Position(entries, s.fingerprint)
      case Some(i) =>
        hide Position;
        WithoutStaysDistinct(entries, i);
        var rest := Without(entries, i);
        assert forall k :: 0 <= k < |rest| ==> rest[k].snapshot.fingerprint != entries[i].snapshot.fingerprint;
      case None =>
        EvictionFindsAVictim(cfg, entries, Entry(s, origin, atMillis, false));
        hide Position, Evicted, Distinct;
    }
  }

  lemma WithPinSound(cfg: Config, entries: seq<Entry>, f: Fingerprint, pinned: bool)
    requires Sound(cfg, entries)
    ensures Sound(cfg, WithPin(entries, f, pinned))
  {
    hide Position;
  }

  /** Over every run the history stays within capacity and holds no content twice. */
  lemma {:induction false} HistoryBoundedAndDistinct(cfg: Config, ops: seq<Op>)
    ensures |Run(cfg, ops)| <= cfg.capacity && Distinct(Run(cfg, ops))
    decreases |ops|
  {
    if ops != [] {
      HistoryBoundedAndDistinct(cfg, ops[..|ops| - 1]);
      StepSound(cfg, Run(cfg, ops[..|ops| - 1]), ops[|ops| - 1]);
    }
  }

  predicate IsPinned(entries: seq<Entry>, f: Fingerprint) {
    Position(entries, f).Some? && entries[Position(entries, f).value].pinned
  }

  ghost predicate PinnedIn(entries: seq<Entry>, f: Fingerprint) {
    exists e :: e in entries && e.snapshot.fingerprint == f && e.pinned
  }

  lemma PinnedByMembership(entries: seq<Entry>, f: Fingerprint)
    requires Distinct(entries)
    ensures IsPinned(entries, f) <==> PinnedIn(entries, f)
  {
    if IsPinned(entries, f) {
      assert entries[Position(entries, f).value] in entries;
    }
  }

  lemma PinnedSurvivesRecord(cfg: Config, entries: seq<Entry>, s: SnapshotSummary, origin: DeviceId, atMillis: nat,
                             i: nat)
    requires Sound(cfg, entries) && Refusal(cfg, s).None? && i < |entries| && entries[i].pinned
    ensures PinnedIn(Recorded(cfg, entries, s, origin, atMillis), entries[i].snapshot.fingerprint)
  {
    var e := entries[i];
    match Position(entries, s.fingerprint)
    case Some(k) =>
      var after := Recorded(cfg, entries, s, origin, atMillis);
      if k == i {
        assert after[0] in after;
      } else {
        hide Position, Distinct;
        WithoutKeeps(entries, k, i);
        assert e in after;
      }
    case None =>
      var added := Entry(s, origin, atMillis, false);
      EvictionFindsAVictim(cfg, entries, added);
      var full := [added] + entries;
      hide Position, Distinct, Evicted;
      assert full[i + 1] == e && e in full;
      if |full| > cfg.capacity {
        WithoutKeeps(full, OldestUnpinned(full).value, i + 1);
      }
  }

  /** A pinned entry leaves only through `remove`, and loses its pin only through `unpin`. */
  lemma PinnedLeavesOnlyByRemove(cfg: Config, entries: seq<Entry>, op: Op, f: Fingerprint)
    requires Sound(cfg, entries) && IsPinned(entries, f) && op != Remove(f)
    ensures Position(Step(cfg, entries, op), f).Some?
    ensures op != Unpin(f) ==> IsPinned(Step(cfg, entries, op), f)
  {
    var i := Position(entries, f).value;
    StepSound(cfg, entries, op);
    var after := Step(cfg, entries, op);
    PinnedByMembership(after, f);
    hide Position, Distinct, Recorded, WithPin;
    match op
    case Record(s, origin, atMillis) =>
      if Refusal(cfg, s).None? {
        PinnedSurvivesRecord(cfg, entries, s, origin, atMillis, i);
      } else {
        RefusedChangesNothing(cfg, entries, s, origin, atMillis);
      }
    case Pin(g) => PinnedAfterSetting(entries, g, true, f, i);
    case Unpin(g) =>
      if g != f {
        PinnedAfterSetting(entries, g, false, f, i);
      } else {
        UnpinnedStays(entries, f);
      }
    case Remove(g) =>
      if Position(entries, g).Some? {
        WithoutKeeps(entries, Position(entries, g).value, i);
      }
    case Clear =>
      OnlyPinnedMembers(entries);
      assert entries[i] in entries;
  }

  lemma RefusedChangesNothing(cfg: Config, entries: seq<Entry>, s: SnapshotSummary, origin: DeviceId, atMillis: nat)
    requires Refusal(cfg, s).Some?
    ensures Recorded(cfg, entries, s, origin, atMillis) == entries
  {
  }

  lemma UnpinnedStays(entries: seq<Entry>, f: Fingerprint)
    requires Position(entries, f).Some?
    ensures Position(WithPin(entries, f, false), f).Some?
  {
    var i := Position(entries, f).value;
    assert WithPin(entries, f, false)[i].snapshot.fingerprint == f;
  }

  lemma WithoutKeeps(entries: seq<Entry>, gone: nat, kept: nat)
    requires gone < |entries| && kept < |entries| && gone != kept
    ensures entries[kept] in Without(entries, gone)
  {
    var at := if kept < gone then kept else kept - 1;
    assert Without(entries, gone)[at] == entries[kept];
  }

  lemma PinnedAfterSetting(entries: seq<Entry>, g: Fingerprint, pinned: bool, f: Fingerprint, i: nat)
    requires Distinct(entries) && i < |entries| && entries[i].snapshot.fingerprint == f && entries[i].pinned
    requires g != f || pinned
    ensures exists e :: e in WithPin(entries, g, pinned) && e.snapshot.fingerprint == f && e.pinned
  {
    var after := WithPin(entries, g, pinned);
    assert after[i].pinned && after[i] in after;
  }

  lemma FirstIsFound(entries: seq<Entry>, f: Fingerprint)
    requires entries != [] && entries[0].snapshot.fingerprint == f
    ensures Position(entries, f).Some?
  {
  }

  /** Whether the oldest unpinned entry of a history with a newcomer in front is the newcomer itself. */
  lemma {:induction false} OldestUnpinnedBehindNewcomer(entries: seq<Entry>, added: Entry)
    requires !added.pinned
    ensures OldestUnpinned([added] + entries) ==
            (match OldestUnpinned(entries) case Some(i) => Some(i + 1) case None => Some(0))
  {
    var full := [added] + entries;
    if entries != [] {
      assert full[..|full| - 1] == [added] + entries[..|entries| - 1];
      if entries[|entries| - 1].pinned {
        OldestUnpinnedBehindNewcomer(entries[..|entries| - 1], added);
      }
    }
  }

  /** The newcomer survives its own insertion exactly when there is room or an older unpinned entry to give way. */
  lemma NewcomerSurvivesIff(cfg: Config, entries: seq<Entry>, added: Entry)
    requires Sound(cfg, entries) && !added.pinned && Position(entries, added.snapshot.fingerprint).None?
    ensures Position(Evicted([added] + entries, cfg.capacity), added.snapshot.fingerprint).Some? <==>
            |entries| < cfg.capacity || OldestUnpinned(entries).Some?
  {
    var full := [added] + entries;
    EvictionFindsAVictim(cfg, entries, added);
    OldestUnpinnedBehindNewcomer(entries, added);
    hide Position, OldestUnpinned, Evicted, Sound;
    if |full| > cfg.capacity && OldestUnpinned(entries).None? {
      assert Without(full, 0) == entries;
    } else {
      FirstIsFound(Evicted(full, cfg.capacity), added.snapshot.fingerprint);
    }
  }

  /**
   * A successful record does not promise retention: the content is kept exactly
   * when it was there already, there is room, or an older unpinned entry can
   * make room.
   */
  lemma RecordedIsRetainedIff(cfg: Config, entries: seq<Entry>, s: SnapshotSummary, origin: DeviceId, atMillis: nat)
    requires Sound(cfg, entries) && Refusal(cfg, s).None?
    ensures Position(Recorded(cfg, entries, s, origin, atMillis), s.fingerprint).Some? <==>
            Position(entries, s.fingerprint).Some? || |entries| < cfg.capacity || OldestUnpinned(entries).Some?
  {
    match Position(entries, s.fingerprint)
    case Some(i) =>
      assert Recorded(cfg, entries, s, origin, atMillis)[0].snapshot.fingerprint == s.fingerprint;
    case None => NewcomerSurvivesIff(cfg, entries, Entry(s, origin, atMillis, false));
  }

  /** A history of one pinned entry: the next copy is recorded without error and is not there afterwards. */
  lemma RecordedAndForgotten()
    ensures var cfg := Config(1, 10, false);
            var first, next := SnapshotSummary(1, 1, false, false), SnapshotSummary(2, 1, false, false);
            var before := Run(cfg, [Record(first, 0, 0), Pin(1)]);
            && before == [Entry(first, 0, 0, true)] && Refusal(cfg, next).None?
            && Run(cfg, [Record(first, 0, 0), Pin(1), Record(next, 0, 1)]) == before && Position(before, 2).None?
  {
    var cfg := Config(1, 10, false);
    var first, next := SnapshotSummary(1, 1, false, false), SnapshotSummary(2, 1, false, false);
    var entry := Entry(first, 0, 0, true);
    assert [Record(first, 0, 0)][..0] == [];
    assert Run(cfg, [Record(first, 0, 0)]) == [Entry(first, 0, 0, false)];
    assert [Record(first, 0, 0), Pin(1)][..1] == [Record(first, 0, 0)];
    assert [entry.(pinned := false)][0 := entry] == [entry];
    assert Run(cfg, [Record(first, 0, 0), Pin(1)]) == [entry];
    assert [Record(first, 0, 0), Pin(1), Record(next, 0, 1)][..2] == [Record(first, 0, 0), Pin(1)];
    var full := [Entry(next, 0, 1, false), entry];
    assert full[..1] == [Entry(next, 0, 1, false)];
    assert OldestUnpinned(full) == Some(0);
    assert Without(full, 0) == [entry];
    assert Evicted(full, 1) == [entry];
    assert [Entry(next, 0, 1, false)] + [entry] == full;
  }

  // ---------------------------------------------------------------- without pins

  /** The log's contents, each once, most recently recorded first. */
  function MostRecent(log: seq<Fingerprint>): seq<Fingerprint>
    decreases |log|
  {
    if log == [] then []
    else [log[|log| - 1]] + Dropped(MostRecent(log[..|log| - 1]), log[|log| - 1])
  }

  function Dropped(fps: seq<Fingerprint>, f: Fingerprint): seq<Fingerprint> {
    if fps == [] then []
    else (if fps[0] == f then [] else [fps[0]]) + Dropped(fps[1..], f)
  }

  function Take(fps: seq<Fingerprint>, n: nat): seq<Fingerprint> {
    if |fps| <= n then fps else fps[..n]
  }

  /** The fingerprints of the accepted records, in order. */
  function Accepted(cfg: Config, ops: seq<Op>): seq<Fingerprint>
    decreases |ops|
  {
    if ops == [] then []
    else
      var before := Accepted(cfg, ops[..|ops| - 1]);
      var op := ops[|ops| - 1];
      if op.Record? && Refusal(cfg, op.snapshot).None? then before + [op.snapshot.fingerprint] else before
  }

  ghost predicate NoRepeats(fps: seq<Fingerprint>) {
    forall i, j :: 0 <= i < j < |fps| ==> fps[i] != fps[j]
  }

  lemma ConsNoRepeats(f: Fingerprint, fps: seq<Fingerprint>)
    requires NoRepeats(fps) && f !in fps
    ensures NoRepeats([f] + fps)
  {
  }

  /** Dropping a content that does not occur in a prefix leaves that prefix. */
  lemma {:induction false} DroppedPrefix(fps: seq<Fingerprint>, f: Fingerprint, n: nat)
    requires n <= |fps| && f !in fps[..n]
    ensures n <= |Dropped(fps, f)| && Dropped(fps, f)[..n] == fps[..n]
  {
    if n > 0 {
      assert fps[0] == fps[..n][0];
      assert fps[1..][..n - 1] == fps[..n][1..];
      DroppedPrefix(fps[1..], f, n - 1);
    }
  }

  lemma {:induction false} DroppedAbsent(fps: seq<Fingerprint>, f: Fingerprint)
    requires f !in fps
    ensures Dropped(fps, f) == fps
  {
    if fps != [] {
      DroppedAbsent(fps[1..], f);
    }
  }

  lemma {:induction false} DroppedMembers(fps: seq<Fingerprint>, f: Fingerprint)
    ensures forall g :: g in Dropped(fps, f) <==> g in fps && g != f
    ensures NoRepeats(fps) ==> NoRepeats(Dropped(fps, f))
  {
    if fps != [] {
      DroppedMembers(fps[1..], f);
      assert fps == [fps[0]] + fps[1..];
      if NoRepeats(fps) {
        ConsNoRepeats(fps[0], Dropped(fps[1..], f));
      }
    }
  }

  lemma {:induction false} DroppedAt(fps: seq<Fingerprint>, i: nat)
    requires i < |fps| && NoRepeats(fps)
    ensures Dropped(fps, fps[i]) == fps[..i] + fps[i + 1..]
  {
    hide NoRepeats;
    NoRepeatsTail(fps);
    if i == 0 {
      DroppedAbsent(fps[1..], fps[0]);
      assert fps[..0] + fps[1..] == fps[1..];
    } else {
      DroppedAt(fps[1..], i - 1);
      assert fps[i] in fps[1..];
      assert fps[..i] + fps[i + 1..] == [fps[0]] + (fps[1..][..i - 1] + fps[1..][i..]);
    }
  }

  lemma NoRepeatsTail(fps: seq<Fingerprint>)
    requires NoRepeats(fps) && fps != []
    ensures NoRepeats(fps[1..]) && fps[0] !in fps[1..]
  {
  }

  lemma {:induction false} MostRecentDistinct(log: seq<Fingerprint>)
    ensures NoRepeats(MostRecent(log))
    ensures forall f :: f in MostRecent(log) <==> f in log
    decreases |log|
  {
    if log != [] {
      var before := log[..|log| - 1];
      MostRecentDistinct(before);
      var last := log[|log| - 1];
      DroppedMembers(MostRecent(before), last);
      ConsNoRepeats(last, Dropped(MostRecent(before), last));
      assert log == before + [last];
    }
  }

  // ---------------------------------------------------------------- refinement

  lemma {:induction false} AllUnpinnedEvictsLast(entries: seq<Entry>)
    requires entries != [] && NothingPinned(entries)
    ensures OldestUnpinned(entries) == Some(|entries| - 1)
  {
  }

  ghost predicate NothingPinned(entries: seq<Entry>) {
    forall i :: 0 <= i < |entries| ==> !entries[i].pinned
  }

  lemma MovedToFront(entries: seq<Entry>, i: nat, moved: Entry)
    requires i < |entries| && NothingPinned(entries) && !moved.pinned
    ensures var after := [moved] + Without(entries, i);
            && NothingPinned(after)
            && Fingerprints(after) == [moved.snapshot.fingerprint]
                 + (Fingerprints(entries)[..i] + Fingerprints(entries)[i + 1..])
  {
  }

  lemma FingerprintsOfFull(added: Entry, entries: seq<Entry>)
    ensures var full := [added] + entries;
            && Fingerprints(full) == [added.snapshot.fingerprint] + Fingerprints(entries)
            && Without(full, |entries|) == full[..|entries|]
            && Fingerprints(full[..|entries|]) == Fingerprints(full)[..|entries|]
  {
  }

  lemma InsertedInFront(cfg: Config, entries: seq<Entry>, added: Entry)
    requires Sound(cfg, entries) && NothingPinned(entries) && !added.pinned
             && Position(entries, added.snapshot.fingerprint).None?
    ensures var after := Evicted([added] + entries, cfg.capacity);
            && NothingPinned(after)
            && Fingerprints(after) == Take([added.snapshot.fingerprint] + Fingerprints(entries), cfg.capacity)
  {
    hide OldestUnpinned, Evicted, Position, Distinct;
    var full := [added] + entries;
    EvictionFindsAVictim(cfg, entries, added);
    assert NothingPinned(full);
    AllUnpinnedEvictsLast(full);
    FingerprintsOfFull(added, entries);
  }

  /** Fingerprints after recording, when nothing is pinned. */
  lemma RecordedFingerprints(cfg: Config, entries: seq<Entry>, s: SnapshotSummary, origin: DeviceId, atMillis: nat)
    requires Sound(cfg, entries) && NothingPinned(entries) && Refusal(cfg, s).None?
    ensures var before := Fingerprints(entries);
            var after := Recorded(cfg, entries, s, origin, atMillis);
            && NothingPinned(after)
            && Fingerprints(after) ==
               (match Position(entries, s.fingerprint)
                case Some(i) => [s.fingerprint] + (before[..i] + before[i + 1..])
                case None => Take([s.fingerprint] + before, cfg.capacity))
  {
    match Position(entries, s.fingerprint)
    case Some(i) => MovedToFront(entries, i, entries[i].(atMillis := atMillis, origin := origin));
    case None => InsertedInFront(cfg, entries, Entry(s, origin, atMillis, false));
  }

  lemma MostRecentAppend(log: seq<Fingerprint>, f: Fingerprint)
    ensures MostRecent(log + [f]) == [f] + Dropped(MostRecent(log), f)
  {
    assert (log + [f])[..|log + [f]| - 1] == log;
  }

  /** Recording on the front of the `n` most recent contents gives the `n` most recent contents. */
  lemma TakeMostRecent(recent: seq<Fingerprint>, f: Fingerprint, n: nat)
    requires NoRepeats(recent)
    ensures f !in Take(recent, n) ==> Take([f] + Take(recent, n), n) == Take([f] + Dropped(recent, f), n)
    ensures forall i :: 0 <= i < |Take(recent, n)| && recent[i] == f ==>
              [f] + (Take(recent, n)[..i] + Take(recent, n)[i + 1..]) == Take([f] + Dropped(recent, f), n)
  {
    hide NoRepeats, Dropped;
    if f !in Take(recent, n) {
      TakeNew(recent, f, n);
    }
    forall i | 0 <= i < |Take(recent, n)| && recent[i] == f
      ensures [f] + (Take(recent, n)[..i] + Take(recent, n)[i + 1..]) == Take([f] + Dropped(recent, f), n)
    {
      DroppedAt(recent, i);
    }
  }

  lemma TakeNew(recent: seq<Fingerprint>, f: Fingerprint, n: nat)
    requires f !in Take(recent, n)
    ensures Take([f] + Take(recent, n), n) == Take([f] + Dropped(recent, f), n)
  {
    if |recent| <= n {
      DroppedAbsent(recent, f);
    } else {
      DroppedPrefix(recent, f, n);
      hide Dropped;
      var rest := Dropped(recent, f);
      assert ([f] + recent[..n])[..n] == ([f] + rest[..n])[..n] == ([f] + rest)[..n];
    }
  }

  /**
   * With only records, the history is exactly the `capacity` most recently
   * accepted distinct contents, newest first.
   */
  lemma {:induction false} HistoryIsMostRecent(cfg: Config, ops: seq<Op>)
    requires forall op :: op in ops ==> op.Record?
    ensures Fingerprints(Run(cfg, ops)) == Take(MostRecent(Accepted(cfg, ops)), cfg.capacity)
    ensures NothingPinned(Run(cfg, ops))
    decreases |ops|
  {
    if ops != [] {
      var before := ops[..|ops| - 1];
      var op := ops[|ops| - 1];
      assert op in ops;
      HistoryIsMostRecent(cfg, before);
      HistoryBoundedAndDistinct(cfg, before);
      var entries, log := Run(cfg, before), Accepted(cfg, before);
      if Refusal(cfg, op.snapshot).None? {
        var f := op.snapshot.fingerprint;
        RecordedFingerprints(cfg, entries, op.snapshot, op.origin, op.atMillis);
        MostRecentDistinct(log);
        MostRecentAppend(log, f);
        TakeMostRecent(MostRecent(log), f, cfg.capacity);
        FoundIffListed(entries, f);
      }
    }
  }

  lemma FoundIffListed(entries: seq<Entry>, f: Fingerprint)
    ensures Position(entries, f).Some? <==> f in Fingerprints(entries)
    ensures Position(entries, f).Some? ==> Fingerprints(entries)[Position(entries, f).value] == f
  {
    if f in Fingerprints(entries) {
      var i :| 0 <= i < |entries| && Fingerprints(entries)[i] == f;
    }
    if Position(entries, f).Some? {
      assert Fingerprints(entries)[Position(entries, f).value] == f;
    }
  }

  lemma PositionOfEntry(entries: seq<Entry>, i: nat)
    requires Distinct(entries) && i < |entries|
    ensures Position(entries, entries[i].snapshot.fingerprint) == Some(i)
  {
  }

  // ---------------------------------------------------------------- the history as the program holds it

  class History {
    const cfg: Config
    var entries: seq<Entry>

    constructor (cfg: Config)
      ensures this.cfg == cfg && entries == Run(cfg, [])
    {
      this.cfg, entries := cfg, [];
    }

    /** Linear search from the front. */
    method FindPosition(f: Fingerprint) returns (pos: Option<nat>)
      ensures pos == Position(entries, f)
    {
      var i := 0;
      while i < |entries|
        invariant i <= |entries|
        invariant Position(entries, f) ==
                  (match Position(entries[i..], f) case None => None case Some(k) => Some(i + k))
      {
        if entries[i].snapshot.fingerprint == f {
          return Some(i);
        }
        assert entries[i..][1..] == entries[i + 1..];
        i := i + 1;
      }
      return None;
    }

    /** Linear search from the back. */
    method FindVictim() returns (pos: Option<nat>)
      ensures pos == OldestUnpinned(entries)
    {
      var i := |entries|;
      while i > 0
        invariant 0 <= i <= |entries|
        invariant OldestUnpinned(entries) == OldestUnpinned(entries[..i])
      {
        if !entries[i - 1].pinned {
          return Some(i - 1);
        }
        assert entries[..i][..i - 1] == entries[..i - 1];
        i := i - 1;
      }
      return None;
    }

    method Evict()
      modifies this`entries
      ensures entries == Evicted(old(entries), cfg.capacity)
    {
      while |entries| > cfg.capacity
        invariant Evicted(entries, cfg.capacity) == Evicted(old(entries), cfg.capacity)
        decreases |entries|
      {
        var victim := FindVictim();
        if victim.None? {
          break;
        }
        entries := entries[..victim.value] + entries[victim.value + 1..];
      }
    }

    method RecordSnapshot(s: SnapshotSummary, origin: DeviceId, atMillis: nat)
        returns (r: Result<Fingerprint, SkipReason>)
      modifies this`entries
      ensures entries == Recorded(cfg, old(entries), s, origin, atMillis)
      ensures r == (match Refusal(cfg, s) case Some(reason) => Err(reason) case None => Ok(s.fingerprint))
    {
      if s.isEmpty {
        return Err(Empty);
      }
      if s.isConcealed && !cfg.storeConcealed {
        return Err(Concealed);
      }
      if s.totalLen > cfg.maxEntryBytes {
        return Err(TooLarge);
      }
      var pos := FindPosition(s.fingerprint);
      if pos.Some? {
        var entry := entries[pos.value].(atMillis := atMillis, origin := origin);
        entries := entries[..pos.value] + entries[pos.value + 1..];
        entries := [entry] + entries;
        return Ok(s.fingerprint);
      }
      entries := [Entry(s, origin, atMillis, false)] + entries;
      Evict();
      return Ok(s.fingerprint);
    }

    method SetPinned(f: Fingerprint, pinned: bool) returns (found: bool)
      modifies this`entries
      ensures entries == WithPin(old(entries), f, pinned)
      ensures found == Position(old(entries), f).Some?
    {
      var pos := FindPosition(f);
      if pos.Some? {
        entries := entries[pos.value := entries[pos.value].(pinned := pinned)];
      }
      return pos.Some?;
    }

    method RemoveEntry(f: Fingerprint) returns (removed: bool)
      modifies this`entries
      ensures entries == Step(cfg, old(entries), Remove(f))
      ensures removed == Position(old(entries), f).Some?
    {
      var pos := FindPosition(f);
      if pos.Some? {
        entries := entries[..pos.value] + entries[pos.value + 1..];
      }
      return pos.Some?;
    }

    method ClearUnpinned()
      modifies this`entries
      ensures entries == OnlyPinned(old(entries))
    {
      var kept := [];
      for i := 0 to |entries|
        invariant kept == OnlyPinned(entries[..i])
      {
        assert entries[..i + 1][..i] == entries[..i];
        if entries[i].pinned {
          kept := kept + [entries[i]];
        }
      }
      assert entries[..|entries|] == entries;
      entries := kept;
    }
  }

  // ---------------------------------------------------------------- what each operation leaves

  /** A selection the user may keep: not empty, not concealed unless those are kept too, and not too large. */
  predicate Storable(cfg: Config, s: SnapshotSummary) {
    !s.isEmpty && (s.isConcealed ==> cfg.storeConcealed) && s.totalLen <= cfg.maxEntryBytes
  }

  /** With room for it, a selection heads the history after being recorded exactly when it may be kept. */
  lemma RecordedHeadsIff(cfg: Config, entries: seq<Entry>, s: SnapshotSummary, origin: DeviceId, atMillis: nat)
    requires Sound(cfg, entries) && |entries| < cfg.capacity
    ensures var after := Step(cfg, entries, Record(s, origin, atMillis));
            && (Storable(cfg, s) <==> after != [] && after[0].snapshot.fingerprint == s.fingerprint
                                      && after[0].origin == origin && after[0].atMillis == atMillis
                                      && (forall e :: e in entries && e.snapshot.fingerprint != s.fingerprint ==>
                                            e in after)
                                      && Refusal(cfg, s).None?)
            && (!Storable(cfg, s) ==> after == entries)
  {
    if Storable(cfg, s) {
      var after := Step(cfg, entries, Record(s, origin, atMillis));
      forall e | e in entries && e.snapshot.fingerprint != s.fingerprint ensures e in after {
        var i :| 0 <= i < |entries| && entries[i] == e;
        if Position(entries, s.fingerprint).Some? {
          WithoutKeeps(entries, Position(entries, s.fingerprint).value, i);
        } else {
          assert after[i + 1] == e;
        }
      }
    }
  }

  /** The entries with other contents, in order. */
  function Others(entries: seq<Entry>, f: Fingerprint): seq<Entry> {
    if entries == [] then []
    else (if entries[0].snapshot.fingerprint == f then [] else [entries[0]]) + Others(entries[1..], f)
  }

  lemma {:induction false} OthersOfAbsent(entries: seq<Entry>, f: Fingerprint)
    requires Position(entries, f).None?
    ensures Others(entries, f) == entries
  {
    if entries != [] {
      OthersOfAbsent(entries[1..], f);
    }
  }

  lemma {:induction false} OthersAppend(a: seq<Entry>, b: seq<Entry>, f: Fingerprint)
    ensures Others(a + b, f) == Others(a, f) + Others(b, f)
  {
    if a == [] {
      assert a + b == b;
    } else {
      assert (a + b)[1..] == a[1..] + b;
      OthersAppend(a[1..], b, f);
    }
  }

  lemma OthersSplit(front: seq<Entry>, e: Entry, rest: seq<Entry>)
    requires Position(front, e.snapshot.fingerprint).None? && Position(rest, e.snapshot.fingerprint).None?
    ensures Others(front + ([e] + rest), e.snapshot.fingerprint) == front + rest
  {
    var f := e.snapshot.fingerprint;
    hide Position, Others;
    OthersAppend(front, [e] + rest, f);
    OthersAppend([e], rest, f);
    OthersOfOne(e, f);
    OthersOfAbsent(front, f);
    OthersOfAbsent(rest, f);
  }

  lemma WithoutIsOthers(entries: seq<Entry>, i: nat)
    requires Distinct(entries) && i < |entries|
    ensures Without(entries, i) == Others(entries, entries[i].snapshot.fingerprint)
    ensures Position(Without(entries, i), entries[i].snapshot.fingerprint).None?
  {
    hide Position, Others, Distinct;
    var front, rest := entries[..i], entries[i + 1..];
    AbsentFrom(entries, i, front);
    AbsentFrom(entries, i, rest);
    AbsentFrom(entries, i, front + rest);
    OthersSplit(front, entries[i], rest);
    assert entries == front + ([entries[i]] + rest);
  }

  lemma AbsentFrom(entries: seq<Entry>, i: nat, part: seq<Entry>)
    requires Distinct(entries) && i < |entries|
    requires forall e :: e in part ==> e in entries[..i] || e in entries[i + 1..]
    ensures Position(part, entries[i].snapshot.fingerprint).None?
  {
    var f := entries[i].snapshot.fingerprint;
    hide Position;
    forall k | 0 <= k < |part| ensures part[k].snapshot.fingerprint != f {
      assert part[k] in part;
    }
  }

  /** Removing takes out the one entry with that content and nothing else. */
  lemma RemoveLeavesOthers(cfg: Config, entries: seq<Entry>, f: Fingerprint)
    requires Distinct(entries)
    ensures Step(cfg, entries, Remove(f)) == Others(entries, f)
    ensures Position(Step(cfg, entries, Remove(f)), f).None?
  {
    hide Position, Others, Distinct, Without;
    if Position(entries, f).None? {
      OthersOfAbsent(entries, f);
    } else {
      WithoutIsOthers(entries, Position(entries, f).value);
    }
  }

  lemma OthersOfOne(e: Entry, f: Fingerprint)
    requires e.snapshot.fingerprint == f
    ensures Others([e], f) == []
  {
  }

  /** Pinning and unpinning set the pin of the entry with that content and change nothing else. */
  lemma PinningSetsPin(cfg: Config, entries: seq<Entry>, f: Fingerprint)
    requires Distinct(entries)
    ensures var pinned, unpinned := Step(cfg, entries, Pin(f)), Step(cfg, entries, Unpin(f));
            && |pinned| == |entries| && |unpinned| == |entries|
            && forall i :: 0 <= i < |entries| ==>
                 var e := entries[i];
                 if e.snapshot.fingerprint == f
                 then pinned[i] == Entry(e.snapshot, e.origin, e.atMillis, true)
                      && unpinned[i] == Entry(e.snapshot, e.origin, e.atMillis, false)
                 else pinned[i] == e && unpinned[i] == e
  {
    forall i | 0 <= i < |entries| && entries[i].snapshot.fingerprint == f ensures Position(entries, f) == Some(i) {
      PositionOfEntry(entries, i);
    }
  }
}
