/**
 * The converse of `AcknowledgedFiles.AcknowledgedIsHeld`: a manifest that lists a
 * file before the one whose part it is named like has a run in which it is
 * acknowledged without that file.  The run tears the disk once, after the first
 * record; the next sweep (apps/desktop/src/file_transfer.rs:1531-1606) then counts
 * every file as received and moves one of them aside.
 */
module AliasOrder {
  import opened Wrappers
  import opened TransferCheckpoint
  import opened ReceiveDisk
  import opened ReceiveSession
  import opened TransferProtocol
  import opened PartAliases
  import opened AcknowledgedFiles

  /** Whenever the receiver acknowledges, in whatever run, every declared file is there. */
  ghost predicate HeldWhenAcknowledged(hash: Hash, m: Manifest) {
    forall sources: seq<Option<Bytes>>, actions: seq<Action>, policyAllows: bool, permitFree: bool, cp: Checkpoint ::
      Acknowledges(hash, m, Run(hash, m, Start(sources), actions), policyAllows, permitFree, cp) ==>
        HeldAfter(hash, m, Run(hash, m, Start(sources), actions), policyAllows, permitFree)
  }

  ghost predicate Acknowledges(hash: Hash, m: Manifest, s: State, policyAllows: bool, permitFree: bool,
                               cp: Checkpoint) {
    Step(hash, m, s, ReceiverActs(policyAllows, permitFree)).toSender == s.toSender + [Ack(cp)]
  }

  ghost predicate HeldAfter(hash: Hash, m: Manifest, s: State, policyAllows: bool, permitFree: bool) {
    var after := Step(hash, m, s, ReceiverActs(policyAllows, permitFree));
    HeldBefore(hash, m, after.store.disk.files, |m.entries|)
  }

  ghost predicate NoEmptyFile(m: Manifest) {
    forall i: nat :: IsFileAt(m, i) ==> m.entries[i].size > 0
  }

  /** No file both is named like a part and has its own part's name taken. */
  ghost predicate NoChain(m: Manifest) {
    forall o: nat, i: nat, t: nat :: Aliases(m, o, i) ==> !Aliases(m, i, t)
  }

  // ---------------------------------------------------------------- the disk

  /** File `t` is named like the part of a file before it. */
  predicate LateTarget(m: Manifest, t: nat) {
    exists o: nat :: o < t && Aliases(m, o, t)
  }

  /** File `k` lies where the sweep will find it complete. */
  ghost predicate Ready(m: Manifest, contents: seq<Bytes>, files: map<string, Bytes>, k: nat)
    requires IsFileAt(m, k) && k < |contents|
  {
    if LateTarget(m, k) then FinalAt(m, files, k).None? && PartAt(m, files, k) == Some(contents[k])
    else FinalAt(m, files, k) == Some(contents[k])
  }

  function NameFor(m: Manifest, k: nat): string
    requires IsFileAt(m, k)
  {
    if LateTarget(m, k) then PartName(m.entries[k].path) else m.entries[k].path
  }

  /** Every file below `n` under its own name, or under its part's name if it is a late target. */
  function Placed(m: Manifest, contents: seq<Bytes>, n: nat): map<string, Bytes>
    requires n <= |m.entries| == |contents|
  {
    if n == 0 then map[]
    else if m.entries[n - 1].Directory? then Placed(m, contents, n - 1)
    else Placed(m, contents, n - 1)[NameFor(m, n - 1) := contents[n - 1]]
  }

  lemma NamesForApart(m: Manifest, i: nat, j: nat)
    requires WellFormed(m) && NoChain(m) && IsFileAt(m, i) && IsFileAt(m, j) && i != j
    ensures NameFor(m, i) != NameFor(m, j)
    ensures LateTarget(m, i) ==> NameFor(m, j) != m.entries[i].path
  {
    hide LateTarget, WellFormed, NoChain;
    PathsApart(m, i, j);
    PartNameInjective(m.entries[i].path, m.entries[j].path);
    if LateTarget(m, i) {
      NotAnOwner(m, i, j);
    }
    if LateTarget(m, j) {
      NotAnOwner(m, j, i);
    }
  }

  /** A file that is a target is no owner. */
  lemma NotAnOwner(m: Manifest, i: nat, k: nat)
    requires NoChain(m) && LateTarget(m, i) && IsFileAt(m, i) && IsFileAt(m, k)
    ensures m.entries[k].path != PartName(m.entries[i].path)
  {
    var o: nat :| o < i && Aliases(m, o, i);
    assert !Aliases(m, i, k);
  }

  lemma AliasIsLate(m: Manifest, i: nat, k: nat)
    requires i < k && Aliases(m, i, k)
    ensures LateTarget(m, k)
  {
  }

  lemma {:induction false} PlacedNames(m: Manifest, contents: seq<Bytes>, n: nat, name: string)
    requires WellFormed(m) && NoChain(m) && n <= |m.entries| == |contents|
    ensures name in Placed(m, contents, n) ==> exists k: nat :: k < n && IsFileAt(m, k) && NameFor(m, k) == name
    ensures forall k: nat :: k < n && IsFileAt(m, k) && NameFor(m, k) == name ==>
              name in Placed(m, contents, n) && Placed(m, contents, n)[name] == contents[k]
    decreases n
  {
    hide LateTarget, NameFor, WellFormed, NoChain;
    if n > 0 {
      PlacedNames(m, contents, n - 1, name);
      if IsFileAt(m, n - 1) {
        forall k: nat | k < n - 1 && IsFileAt(m, k) ensures NameFor(m, k) != NameFor(m, n - 1) {
          NamesForApart(m, k, n - 1);
        }
      }
    }
  }

  lemma PlacedIsReady(m: Manifest, contents: seq<Bytes>, k: nat)
    requires WellFormed(m) && NoChain(m) && |contents| == |m.entries| && IsFileAt(m, k)
    ensures Ready(m, contents, Placed(m, contents, |m.entries|), k)
  {
    hide LateTarget, WellFormed, NoChain, Placed;
    PlacedNames(m, contents, |m.entries|, NameFor(m, k));
    PlacedNames(m, contents, |m.entries|, m.entries[k].path);
    if LateTarget(m, k) {
      PartNameInjective(m.entries[k].path, m.entries[k].path);
      forall j: nat | j < |m.entries| && IsFileAt(m, j) ensures NameFor(m, j) != m.entries[k].path {
        if j != k {
          NamesForApart(m, k, j);
        }
      }
    }
  }

  // ---------------------------------------------------------------- the sweep counts everything

  /** Judging file `i` verifies it and leaves the later files ready. */
  lemma ReadyIsVerified(hash: Hash, m: Manifest, contents: seq<Bytes>, d: Disk, i: nat)
    requires ContentsMatch(hash, m, contents) && IsFileAt(m, i) && Ready(m, contents, d.files, i)
    ensures SettleFile(hash, d, m.entries[i]) ==
            ((if LateTarget(m, i) then Publish(d, m.entries[i].path) else Quarantine(d, PartName(m.entries[i].path))),
             Verified)
  {
    hide LateTarget;
    assert Matches(hash, m.entries[i], contents[i]);
  }

  lemma StillReady(hash: Hash, m: Manifest, contents: seq<Bytes>, d: Disk, i: nat, k: nat)
    requires WellFormed(m) && NoChain(m) && ContentsMatch(hash, m, contents) && IsFileAt(m, i) && IsFileAt(m, k)
             && i < k
    requires Ready(m, contents, d.files, i) && Ready(m, contents, d.files, k)
    ensures Ready(m, contents, SettleFile(hash, d, m.entries[i]).0.files, k)
  {
    hide SettleFile, WellFormed, NoChain, LateTarget, ContentsMatch;
    ReadyIsVerified(hash, m, contents, d, i);
    var e, f := m.entries[i].path, m.entries[k].path;
    PathsApart(m, i, k);
    PartNameInjective(e, f);
    PartNameInjective(e, e);
    PartNameInjective(f, f);
    if LateTarget(m, i) {
      NotAnOwner(m, i, k);
    } else if PartName(e) == f {
      AliasIsLate(m, i, k);
    }
    if LateTarget(m, k) {
      NotAnOwner(m, k, i);
    }
  }

  lemma {:induction false} SweepCountsAll(hash: Hash, m: Manifest, contents: seq<Bytes>, d: Disk, i: nat)
    requires WellFormed(m) && NoChain(m) && ContentsMatch(hash, m, contents) && i <= |m.entries|
    requires forall l: nat :: IsFileAt(m, l) ==> !Obstructed(m, l)
    requires forall k: nat :: i <= k && IsFileAt(m, k) ==> Ready(m, contents, d.files, k)
    ensures Reconcile(hash, m, d, i, false, CheckpointBeforeEntry(m, i)).1 == Ok(CheckpointBeforeEntry(m, |m.entries|))
    decreases |m.entries| - i
  {
    hide WellFormed, NoChain, Obstructed, Ready, SettleFile, CheckpointBeforeEntry;
    if i < |m.entries| {
      if m.entries[i].Directory? {
        SkipsDirectory(m, i);
        SweepCountsAll(hash, m, contents, d, i + 1);
      } else {
        ReadyIsVerified(hash, m, contents, d, i);
        var d' := SettleFile(hash, d, m.entries[i]).0;
        SweepCounts(hash, m, d, i, d');
        forall k: nat | i + 1 <= k && IsFileAt(m, k) ensures Ready(m, contents, d'.files, k) {
          StillReady(hash, m, contents, d, i, k);
        }
        SweepCountsAll(hash, m, contents, d', i + 1);
      }
    }
  }

  /** A target listed before its owner `o` is gone once the sweep has passed `o`. */
  lemma {:induction false} SweepMovesAside(
      hash: Hash, m: Manifest, contents: seq<Bytes>, d: Disk, i: nat, o: nat, t: nat)
    requires WellFormed(m) && NoChain(m) && ContentsMatch(hash, m, contents) && i <= o && t < o && Aliases(m, o, t)
    requires forall l: nat :: IsFileAt(m, l) ==> !Obstructed(m, l)
    requires forall k: nat :: i <= k && IsFileAt(m, k) ==> Ready(m, contents, d.files, k)
    ensures m.entries[t].path !in Reconcile(hash, m, d, i, false, CheckpointBeforeEntry(m, i)).0.files
    decreases o - i
  {
    hide WellFormed, NoChain, Obstructed, Ready, SettleFile, CheckpointBeforeEntry, Reconcile;
    if m.entries[i].Directory? {
      SkipsDirectory(m, i);
      SweepSkips(hash, m, d, i);
      SweepMovesAside(hash, m, contents, d, i + 1, o, t);
    } else {
      ReadyIsVerified(hash, m, contents, d, i);
      var d' := SettleFile(hash, d, m.entries[i]).0;
      SweepCounts(hash, m, d, i, d');
      if i < o {
        forall k: nat | i + 1 <= k && IsFileAt(m, k) ensures Ready(m, contents, d'.files, k) {
          StillReady(hash, m, contents, d, i, k);
        }
        SweepMovesAside(hash, m, contents, d', i + 1, o, t);
      } else {
        OwnerIsNoTarget(m, o, t);
        assert m.entries[t].path !in d'.files;
        NeverRevived(hash, m, d', o + 1, false, CheckpointBeforeEntry(m, o + 1), t);
      }
    }
  }

  lemma SweepSkips(hash: Hash, m: Manifest, d: Disk, i: nat)
    requires i < |m.entries| && m.entries[i].Directory?
    ensures Reconcile(hash, m, d, i, false, CheckpointBeforeEntry(m, i)) ==
            Reconcile(hash, m, d, i + 1, false, CheckpointBeforeEntry(m, i))
  {
    hide CheckpointBeforeEntry;
  }

  lemma OwnerIsNoTarget(m: Manifest, o: nat, t: nat)
    requires NoChain(m) && Aliases(m, o, t)
    ensures !LateTarget(m, o)
  {
  }

  // ---------------------------------------------------------------- the run

  lemma {:induction false} RunAfter(hash: Hash, m: Manifest, s: State, a: seq<Action>, b: seq<Action>)
    ensures Run(hash, m, s, a + b) == Run(hash, m, Run(hash, m, s, a), b)
    decreases |b|
  {
    hide Step;
    if b == [] {
      assert a + b == a;
    } else {
      RunAfter(hash, m, s, a, b[..|b| - 1]);
      assert (a + b)[..|a + b| - 1] == a + b[..|b| - 1];
    }
  }

  lemma RunThen(hash: Hash, m: Manifest, s: State, a: seq<Action>, last: Action)
    ensures Run(hash, m, s, a + [last]) == Step(hash, m, Run(hash, m, s, a), last)
  {
    hide Step;
    assert (a + [last])[..|a|] == a;
  }

  lemma {:induction false} EmptySweep(hash: Hash, m: Manifest, i: nat, gap: bool)
    requires i <= |m.entries| && forall l: nat :: IsFileAt(m, l) ==> !Obstructed(m, l)
    ensures var d := Disk(map[], multiset{}); Reconcile(hash, m, d, i, gap, None) == (d, Ok(None))
    decreases |m.entries| - i
  {
    hide Obstructed;
    var d := Disk(map[], multiset{});
    if i < |m.entries| {
      assert m.entries[i].File? ==> Discard(d, m.entries[i].path) == d;
      EmptySweep(hash, m, i + 1, gap || m.entries[i].File?);
    }
  }

  /** What the first attempt leaves when nothing has been sent yet. */
  function Bare(m: Manifest): Store {
    Store(true, Disk(map[], multiset{}), Some(ReceiveState(m, None, false)))
  }

  function Torn(m: Manifest, contents: seq<Bytes>): Store
    requires |contents| == |m.entries|
  {
    Bare(m).(disk := Disk(Placed(m, contents, |m.entries|), multiset{}))
  }

  lemma FirstOpening(hash: Hash, m: Manifest)
    requires forall l: nat :: IsFileAt(m, l) ==> !Obstructed(m, l)
    ensures Prepare(hash, Store(false, Disk(map[], multiset{}), None), m)
            == (Bare(m), Ok(Session(m, None, false, None)))
  {
    hide Obstructed, Reconcile;
    EmptySweep(hash, m, 0, false);
  }

  lemma NothingBlocked(m: Manifest, contents: seq<Bytes>)
    requires WellFormed(m) && NoChain(m) && NoPartDirectory(m) && |contents| == |m.entries|
    ensures !DirectoryBlocked(m, Placed(m, contents, |m.entries|))
  {
    hide Placed, LateTarget, WellFormed, NoChain, NoPartDirectory;
    forall e | e in m.entries && e.Directory? ensures e.path !in Placed(m, contents, |m.entries|) {
      PlacedNames(m, contents, |m.entries|, e.path);
      forall k: nat | IsFileAt(m, k) ensures NameFor(m, k) != e.path {
        DirectoryApart(m, e, k);
      }
    }
  }

  /** The manifest and contents this converse is about, and a target before its owner. */
  ghost predicate Setting(hash: Hash, m: Manifest, contents: seq<Bytes>, o: nat, t: nat) {
    && WellFormed(m) && NoChain(m) && NoPartDirectory(m) && NoEmptyFile(m) && ContentsMatch(hash, m, contents)
    && Aliases(m, o, t) && t < o
  }

  function Last(m: Manifest): Option<Checkpoint> {
    CheckpointBeforeEntry(m, |m.entries|)
  }

  /** The sweep of the torn disk counts everything as received and has moved `t` aside. */
  lemma SecondOpening(hash: Hash, m: Manifest, contents: seq<Bytes>, o: nat, t: nat)
    requires Setting(hash, m, contents, o, t)
    ensures var (store, r) := Prepare(hash, Torn(m, contents), m);
            && m.entries[t].path !in store.disk.files && store.record == Some(ReceiveState(m, Last(m), false))
            && store.rootExists && r == Ok(Session(m, Last(m), false, None))
  {
    hide Placed, Obstructed, Reconcile, DirectoryBlocked, LateTarget, NextFilePosition, FirstFileFrom, WellFormed,
         NoChain, NoPartDirectory, Ready;
    ObstructedIff(m);
    NothingBlocked(m, contents);
    var d := Torn(m, contents).disk;
    forall k: nat | IsFileAt(m, k) ensures Ready(m, contents, d.files, k) {
      PlacedIsReady(m, contents, k);
    }
    assert CheckpointBeforeEntry(m, 0) == None;
    SweepCountsAll(hash, m, contents, d, 0);
    SweepMovesAside(hash, m, contents, d, 0, o, t);
    PositionAfterPrefix(m, |m.entries|);
    assert StartOfFileFrom(m, |m.entries|) == None by { NoFileAtEnd(m); }
    LastIsValid(m);
  }

  lemma NoFileAtEnd(m: Manifest)
    ensures StartOfFileFrom(m, |m.entries|) == None
  {
  }

  lemma LastIsValid(m: Manifest)
    ensures Last(m).Some? ==> ValidCheckpoint(m, Last(m).value, false)
  {
    PositionAfterPrefix(m, |m.entries|);
  }

  /** Every file lies at or before the last checkpoint, which gives its whole size as resumed. */
  lemma AllResumed(m: Manifest, i: nat)
    requires IsFileAt(m, i)
    ensures Last(m).Some? && ResumeOffset(m, Last(m), i) == m.entries[i].size
  {
  }

  /** From the last checkpoint the sender reads every file as finished and sends nothing. */
  lemma {:induction false} WalkPast(hash: Hash, m: Manifest, contents: seq<Bytes>, s: State, i: nat)
    returns (actions: seq<Action>)
    requires NoEmptyFile(m) && ContentsMatch(hash, m, contents) && i <= |m.entries|
    requires s.sender == Streaming(Last(m), i, None) && |s.sources| == |m.entries|
    requires forall k: nat :: IsFileAt(m, k) ==> s.sources[k] == Some(contents[k])
    ensures Run(hash, m, s, actions) == s.(sender := Streaming(Last(m), |m.entries|, None))
    decreases |m.entries| - i
  {
    hide Run, Step, Last, ContentsMatch;
    if i == |m.entries| {
      actions := [];
      assert Run(hash, m, s, []) == s by { NoAction(hash, m, s); }
    } else {
      var next := s.(sender := Streaming(Last(m), i + 1, None));
      var few := WalkOne(hash, m, contents, s, i);
      var rest := WalkPast(hash, m, contents, next, i + 1);
      RunAfter(hash, m, s, few, rest);
      actions := few + rest;
    }
  }

  lemma NoAction(hash: Hash, m: Manifest, s: State)
    ensures Run(hash, m, s, []) == s
  {
  }

  lemma WalkOne(hash: Hash, m: Manifest, contents: seq<Bytes>, s: State, i: nat) returns (actions: seq<Action>)
    requires NoEmptyFile(m) && ContentsMatch(hash, m, contents) && i < |m.entries|
    requires s.sender == Streaming(Last(m), i, None) && |s.sources| == |m.entries|
    requires forall k: nat :: IsFileAt(m, k) ==> s.sources[k] == Some(contents[k])
    ensures Run(hash, m, s, actions) == s.(sender := Streaming(Last(m), i + 1, None))
  {
    hide Last, ResumeOffset;
    NoAction(hash, m, s);
    RunThen(hash, m, s, [], SenderActs);
    var next := s.(sender := Streaming(Last(m), i + 1, None));
    if m.entries[i].Directory? {
      actions := [] + [SenderActs];
    } else {
      AllResumed(m, i);
      var content := contents[i];
      assert content[..|content|] == content && Matches(hash, m.entries[i], content);
      var open := s.(sender := Streaming(Last(m), i, Some(Reader(|content|, true, content))));
      assert SenderStep(hash, m, s) == open;
      RunThen(hash, m, s, [] + [SenderActs], SenderActs);
      assert SenderStep(hash, m, open) == next;
      actions := [] + [SenderActs] + [SenderActs];
    }
  }

  function SourcesOf(contents: seq<Bytes>): seq<Option<Bytes>> {
    seq(|contents|, i requires 0 <= i < |contents| => Some(contents[i]))
  }

  /** Between attempts with the disk torn. */
  function Interrupted(m: Manifest, contents: seq<Bytes>): State
    requires |contents| == |m.entries|
  {
    Start(SourcesOf(contents)).(store := Torn(m, contents))
  }

  const FIRST_ATTEMPT: seq<Action> := [] + [SenderActs] + [ReceiverActs(true, true)]

  /** Offer, accept, and the crash that tears the disk. */
  lemma TornAfterFirstRecord(hash: Hash, m: Manifest, contents: seq<Bytes>, o: nat, t: nat)
    requires Setting(hash, m, contents, o, t)
    ensures Run(hash, m, Start(SourcesOf(contents)), FIRST_ATTEMPT + [CrashTearsDisk(Torn(m, contents))]) ==
            Interrupted(m, contents)
  {
    hide Prepare, Obstructed, NoPartDirectory, Placed, LateTarget, NoChain, Run, Aliases;
    ObstructedIff(m);
    FirstOpening(hash, m);
    var start := Start(SourcesOf(contents));
    var offered := start.(sender := Offering, toReceiver := [Offer(m)]);
    var accepted := start.(sender := Offering, toSender := [Accept(None)], store := Bare(m),
                           receiver := Receiving(Session(m, None, false, None)));
    NoAction(hash, m, start);
    RunThen(hash, m, start, [], SenderActs);
    assert Step(hash, m, start, SenderActs) == offered;
    RunThen(hash, m, start, [] + [SenderActs], ReceiverActs(true, true));
    assert Step(hash, m, offered, ReceiverActs(true, true)) == accepted;
    assert !Delivered(hash, m, map[]) by { NothingDelivered(hash, m, o, t); }
    RunThen(hash, m, start, FIRST_ATTEMPT, CrashTearsDisk(Torn(m, contents)));
    assert Step(hash, m, accepted, CrashTearsDisk(Torn(m, contents))) == Interrupted(m, contents);
  }

  lemma NothingDelivered(hash: Hash, m: Manifest, o: nat, t: nat)
    requires Aliases(m, o, t)
    ensures !Delivered(hash, m, map[])
  {
    assert !CleanlyPublished(hash, m, map[], o);
  }

  /** The second attempt resumes after everything, with `t` moved aside. */
  function Resumed(m: Manifest, contents: seq<Bytes>, store: Store): State {
    State(true, Streaming(Last(m), 0, None), SourcesOf(contents), [], [], store,
          Receiving(Session(m, Last(m), false, None)))
  }

  lemma SecondAttempt(hash: Hash, m: Manifest, contents: seq<Bytes>, o: nat, t: nat)
    requires Setting(hash, m, contents, o, t)
    ensures var store := Prepare(hash, Torn(m, contents), m).0;
            Run(hash, m, Interrupted(m, contents), FIRST_ATTEMPT + [SenderActs]) == Resumed(m, contents, store)
  {
    hide Prepare, NoPartDirectory, Placed, LateTarget, NoChain, Run, Last, NextFilePosition, Delivered;
    SecondOpening(hash, m, contents, o, t);
    var s := Interrupted(m, contents);
    var store := Prepare(hash, Torn(m, contents), m).0;
    var session := Session(m, Last(m), false, None);
    AllResumed(m, o);
    LastIsValid(m);
    NoAction(hash, m, s);
    RunThen(hash, m, s, [], SenderActs);
    var offered := s.(sender := Offering, toReceiver := [Offer(m)]);
    assert Step(hash, m, s, SenderActs) == offered;
    RunThen(hash, m, s, [] + [SenderActs], ReceiverActs(true, true));
    var accepted := s.(sender := Offering, toSender := [Accept(Last(m))], store := store,
                       receiver := Receiving(session));
    assert OfferedCheckpoint(session) == Last(m);
    assert Step(hash, m, offered, ReceiverActs(true, true)) == accepted;
    RunThen(hash, m, s, FIRST_ATTEMPT, SenderActs);
    assert Step(hash, m, accepted, SenderActs) == Resumed(m, contents, store);
  }

  /** With everything sent, the claim is acknowledged and the disk stays as the sweep left it. */
  lemma ClaimIsAcknowledged(hash: Hash, m: Manifest, s: State, session: Session)
    requires WellFormed(m) && s.sender == Streaming(Last(m), |m.entries|, None) && s.toReceiver == []
             && s.toSender == []
    requires s.receiver == Receiving(session) && session == Session(m, Last(m), false, None)
    ensures var claimed := Run(hash, m, s, [SenderActs]);
            var acked := Step(hash, m, claimed, ReceiverActs(true, true));
            && TerminalCheckpoint(m).Ok? && claimed.toSender == []
            && acked.toSender == [Ack(TerminalCheckpoint(m).value)]
            && acked.store.disk == s.store.disk
  {
    hide Last, TerminalCheckpoint, NextFilePosition, WellFormed, Run;
    TerminalIsValid(m);
    PositionAfterPrefix(m, |m.entries|);
    NoFileAtEnd(m);
    LastIs(m);
    NoAction(hash, m, s);
    RunThen(hash, m, s, [], SenderActs);
    assert [] + [SenderActs] == [SenderActs];
    var claimed := s.(sender := AwaitingTerminal, toReceiver := [Complete(m.totalBytes)]);
    assert Step(hash, m, s, SenderActs) == claimed;
  }

  lemma LastIs(m: Manifest)
    ensures Last(m) == CheckpointBeforeEntry(m, |m.entries|)
  {
  }

  /** A run that ends with an acknowledgement and without file `t`. */
  lemma TargetFirstIsLost(hash: Hash, m: Manifest, contents: seq<Bytes>, o: nat, t: nat)
    returns (actions: seq<Action>, cp: Checkpoint)
    requires Setting(hash, m, contents, o, t)
    ensures var s := Run(hash, m, Start(SourcesOf(contents)), actions);
            Acknowledges(hash, m, s, true, true, cp) && !HeldAfter(hash, m, s, true, true)
  {
    hide Run, Step, Prepare, NoChain, NoPartDirectory, Placed, WellFormed, Last;
    var start := Start(SourcesOf(contents));
    var first := FIRST_ATTEMPT + [CrashTearsDisk(Torn(m, contents))];
    var second := FIRST_ATTEMPT + [SenderActs];
    TornAfterFirstRecord(hash, m, contents, o, t);
    SecondAttempt(hash, m, contents, o, t);
    SecondOpening(hash, m, contents, o, t);
    RunAfter(hash, m, start, first, second);
    var resumed := Resumed(m, contents, Prepare(hash, Torn(m, contents), m).0);
    var walk := WalkPast(hash, m, contents, resumed, 0);
    RunAfter(hash, m, start, first + second, walk);
    var sent := resumed.(sender := Streaming(Last(m), |m.entries|, None));
    ClaimIsAcknowledged(hash, m, sent, Session(m, Last(m), false, None));
    RunAfter(hash, m, start, first + second + walk, [SenderActs]);
    actions := first + second + walk + [SenderActs];
    cp := TerminalCheckpoint(m).value;
    var acked := Step(hash, m, Run(hash, m, start, actions), ReceiverActs(true, true));
    assert [] + [Ack(cp)] == [Ack(cp)];
    assert !Held(hash, m, acked.store.disk.files, t);
  }

  lemma OwnersFirstIsHeld(hash: Hash, m: Manifest)
    requires WellFormed(m) && NoReservedName(m) && OwnersFirst(m)
    ensures HeldWhenAcknowledged(hash, m)
  {
    hide Step, Run, WellFormed, OwnersFirst;
    forall sources: seq<Option<Bytes>>, actions: seq<Action>, policyAllows: bool, permitFree: bool, cp: Checkpoint
      ensures Acknowledges(hash, m, Run(hash, m, Start(sources), actions), policyAllows, permitFree, cp) ==>
                HeldAfter(hash, m, Run(hash, m, Start(sources), actions), policyAllows, permitFree)
    {
      AcknowledgedIsHeld(hash, m, sources, actions, policyAllows, permitFree, cp);
    }
  }

  lemma LostIsNotHeld(hash: Hash, m: Manifest, sources: seq<Option<Bytes>>, actions: seq<Action>, cp: Checkpoint)
    requires var s := Run(hash, m, Start(sources), actions);
             Acknowledges(hash, m, s, true, true, cp) && !HeldAfter(hash, m, s, true, true)
    ensures !HeldWhenAcknowledged(hash, m)
  {
    hide Step, Run, Acknowledges, HeldAfter;
  }

  /**
   * For a manifest with contents, no directory named like a part, no empty file and no file that is both like a part
   * and owner of one: the receiver holds every file whenever it acknowledges, over every run, exactly when every
   * file comes before a file named like its part.
   */
  lemma HeldIffOwnersFirst(hash: Hash, m: Manifest, contents: seq<Bytes>)
    requires WellFormed(m) && NoReservedName(m) && ContentsMatch(hash, m, contents)
    requires NoPartDirectory(m) && NoEmptyFile(m) && NoChain(m)
    ensures HeldWhenAcknowledged(hash, m) <==> OwnersFirst(m)
  {
    hide Step, Run, WellFormed, NoPartDirectory, ContentsMatch, NoChain, NoEmptyFile, HeldWhenAcknowledged;
    if OwnersFirst(m) {
      OwnersFirstIsHeld(hash, m);
    } else {
      var o: nat, t: nat :| Aliases(m, o, t) && t <= o;
      PartNameInjective(m.entries[o].path, m.entries[o].path);
      var actions, cp := TargetFirstIsLost(hash, m, contents, o, t);
      LostIsNotHeld(hash, m, SourcesOf(contents), actions, cp);
    }
  }
}
