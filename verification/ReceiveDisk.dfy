/**
 * The receiver's disk for one transfer and the sweep that recomputes the
 * checkpoint from it: apps/desktop/src/file_transfer.rs:1531-1606.
 *
 * Files are kept by name, so a destination and a partial file are told apart
 * only by their names, exactly as on disk.  The digest is any function `hash`.
 */
module ReceiveDisk {
  import opened Wrappers
  import opened TransferCheckpoint

  type Hash = Bytes -> Digest

  /** Live files by name, and the contents moved aside so far. */
  datatype Disk = Disk(files: map<string, Bytes>, quarantined: multiset<Bytes>)

  datatype Verdict =
    | Verified
    | Partial(length: nat)
    | Broken

  function PartName(path: string): string {
    path + ".part"
  }

  function Quarantine(d: Disk, name: string): Disk {
    if name in d.files then Disk(d.files - {name}, d.quarantined + multiset{d.files[name]})
    else d
  }

  predicate Matches(hash: Hash, e: Entry, content: Bytes) {
    e.File? && |content| == e.size && hash(content) == e.digest
  }

  /** Hard-link the part to its destination and drop the part name. */
  function Publish(d: Disk, path: string): Disk
    requires PartName(path) in d.files
  {
    d.(files := (d.files - {PartName(path)})[path := d.files[PartName(path)]])
  }

  /** Judge a part whose destination is free. */
  function SettlePart(hash: Hash, d: Disk, e: Entry): (Disk, Verdict)
    requires e.File?
  {
    var part := PartName(e.path);
    if part !in d.files then (d, Broken)
    else if |d.files[part]| > e.size then (Quarantine(d, part), Broken)
    else if |d.files[part]| < e.size then (d, Partial(|d.files[part]|))
    else if hash(d.files[part]) == e.digest then (Publish(d, e.path), Verified)
    else (Quarantine(d, part), Broken)
  }

  /** Judge one entry while every earlier file is verified. */
  function SettleFile(hash: Hash, d: Disk, e: Entry): (Disk, Verdict)
    requires e.File?
  {
    if e.path !in d.files then SettlePart(hash, d, e)
    else if Matches(hash, e, d.files[e.path]) then (Quarantine(d, PartName(e.path)), Verified)
    else SettlePart(hash, Quarantine(d, e.path), e)
  }

  /** Move aside whatever a file behind the first gap left on disk. */
  function Discard(d: Disk, path: string): Disk {
    Quarantine(Quarantine(d, path), PartName(path))
  }

  /** The gap flag and checkpoint the sweep carries on after judging file `i`. */
  function AfterVerdict(m: Manifest, i: nat, verdict: Verdict, cp: Option<Checkpoint>): (bool, Option<Checkpoint>)
    requires IsFileAt(m, i)
  {
    match verdict
    case Verified => (false, Some(CheckpointAfterChunk(m, i, m.entries[i].size)))
    case Partial(n) => (true, Some(CheckpointAfterChunk(m, i, n)))
    case Broken => (true, cp)
  }

  /** The directories created before the sweep: those the manifest declares. */
  predicate DirectoryAt(m: Manifest, name: string) {
    exists e :: e in m.entries && e.Directory? && e.path == name
  }

  /** A directory stands where file `i` or its part would. */
  predicate Obstructed(m: Manifest, i: nat)
    requires i < |m.entries|
  {
    DirectoryAt(m, m.entries[i].path) || DirectoryAt(m, PartName(m.entries[i].path))
  }

  /**
   * The sweep from entry `i` on, given whether a gap was seen and the checkpoint so far.
   * It gives up at a file whose name or part name is not that of a regular file.
   */
  function Reconcile(hash: Hash, m: Manifest, d: Disk, i: nat, gap: bool, cp: Option<Checkpoint>): (Disk,
      Result<Option<Checkpoint>, string>)
    requires i <= |m.entries|
    decreases |m.entries| - i
  {
    if i == |m.entries| then (d, Ok(cp))
    else if m.entries[i].Directory? then Reconcile(hash, m, d, i + 1, gap, cp)
    else if Obstructed(m, i) then (d, Err(UNSAFE_FILE))
    else if gap then Reconcile(hash, m, Discard(d, m.entries[i].path), i + 1, true, cp)
    else
      var (d', verdict) := SettleFile(hash, d, m.entries[i]);
      var (gap', cp') := AfterVerdict(m, i, verdict, cp);
      Reconcile(hash, m, d', i + 1, gap', cp')
  }

  function Reconciled(hash: Hash, m: Manifest, d: Disk): (Disk, Result<Option<Checkpoint>, string>) {
    Reconcile(hash, m, d, 0, false, None)
  }

  // ---------------------------------------------------------------- what the disk must look like

  function FinalAt(m: Manifest, files: map<string, Bytes>, i: nat): Option<Bytes>
    requires i < |m.entries|
  {
    if m.entries[i].path in files then Some(files[m.entries[i].path]) else None
  }

  function PartAt(m: Manifest, files: map<string, Bytes>, i: nat): Option<Bytes>
    requires i < |m.entries|
  {
    if PartName(m.entries[i].path) in files then Some(files[PartName(m.entries[i].path)]) else None
  }

  /** Published with the declared length and digest, and no partial file beside it. */
  predicate CleanlyPublished(hash: Hash, m: Manifest, files: map<string, Bytes>, i: nat)
    requires i < |m.entries|
  {
    && FinalAt(m, files, i).Some?
    && Matches(hash, m.entries[i], FinalAt(m, files, i).value)
    && PartAt(m, files, i).None?
  }

  ghost predicate PublishedBefore(hash: Hash, m: Manifest, files: map<string, Bytes>, k: nat) {
    forall i :: 0 <= i < k && IsFileAt(m, i) ==> CleanlyPublished(hash, m, files, i)
  }

  ghost predicate NothingLive(m: Manifest, files: map<string, Bytes>, from: nat, to: nat) {
    forall i :: from <= i < to && IsFileAt(m, i) ==> FinalAt(m, files, i).None? && PartAt(m, files, i).None?
  }

  /** The file at the next position: no destination yet, and a part exactly when the checkpoint points into it. */
  predicate OpenAt(m: Manifest, files: map<string, Bytes>, cp: Option<Checkpoint>, p: Position) {
    && IsFileAt(m, p.index)
    && FinalAt(m, files, p.index).None?
    && (if cp.Some? && cp.value.fileIndex == p.index
        then PartAt(m, files, p.index).Some? && |PartAt(m, files, p.index).value| == p.offset
        else PartAt(m, files, p.index).None?)
  }

  /** Checkpoint and disk agree on the entries below `bound`. */
  ghost predicate InStepUpTo(hash: Hash, m: Manifest, files: map<string, Bytes>, cp: Option<Checkpoint>, bound: nat) {
    && NextFilePosition(m, cp).Ok?
    && match NextFilePosition(m, cp).value
       case None => PublishedBefore(hash, m, files, |m.entries|)
       case Some(p) =>
         && p.index < bound
         && PublishedBefore(hash, m, files, p.index)
         && OpenAt(m, files, cp, p)
         && NothingLive(m, files, p.index + 1, bound)
  }

  /** Published files, then at most one part of exactly the checkpoint's length, then nothing. */
  ghost predicate InStep(hash: Hash, m: Manifest, files: map<string, Bytes>, cp: Option<Checkpoint>) {
    InStepUpTo(hash, m, files, cp, |m.entries|)
  }

  /** File `target` is named like the part of file `owner`. */
  predicate Aliases(m: Manifest, owner: nat, target: nat) {
    IsFileAt(m, owner) && IsFileAt(m, target) && m.entries[target].path == PartName(m.entries[owner].path)
  }

  /**
   * No file is named like another file's part.  Path validation admits such
   * manifests (crates/streaming/src/file_transfer_types.rs:128-157).
   */
  ghost predicate NoPartAlias(m: Manifest) {
    forall i: nat, j: nat :: !Aliases(m, i, j)
  }

  /** No directory is named like a file's part; validation admits such manifests as well. */
  ghost predicate NoPartDirectory(m: Manifest) {
    forall i: nat :: IsFileAt(m, i) ==> !DirectoryAt(m, PartName(m.entries[i].path))
  }

  /** The name under which the receiver keeps its record among the files (file_transfer.rs:35). */
  const RECEIVE_STATE_FILE := ".nexkvm-transfer.toml"

  ghost predicate NoReservedName(m: Manifest) {
    forall e :: e in m.entries ==> e.path != RECEIVE_STATE_FILE
  }

  ghost predicate Separate(m: Manifest) {
    WellFormed(m) && NoPartAlias(m) && NoReservedName(m)
  }

  /** Distinct paths put no directory at a file's own name. */
  lemma ObstructedIff(m: Manifest)
    requires WellFormed(m)
    ensures NoPartDirectory(m) <==> forall i: nat :: IsFileAt(m, i) ==> !Obstructed(m, i)
  {
    forall i: nat | IsFileAt(m, i) ensures !DirectoryAt(m, m.entries[i].path) {
      if DirectoryAt(m, m.entries[i].path) {
        var e :| e in m.entries && e.Directory? && e.path == m.entries[i].path;
        var j :| 0 <= j < |m.entries| && m.entries[j] == e;
        assert false;
      }
    }
  }

  // ---------------------------------------------------------------- framing

  /** Files other than entry `i` kept their destination and part. */
  ghost predicate OthersKept(m: Manifest, before: map<string, Bytes>, after: map<string, Bytes>, i: nat) {
    forall j: nat :: IsFileAt(m, j) && j != i ==>
      FinalAt(m, after, j) == FinalAt(m, before, j) && PartAt(m, after, j) == PartAt(m, before, j)
  }

  /** Only the two names of one file changed. */
  ghost predicate OnlyNames(before: map<string, Bytes>, after: map<string, Bytes>, path: string) {
    forall name :: name != path && name != PartName(path) ==>
      (name in before <==> name in after) && (name in before ==> before[name] == after[name])
  }

  lemma NamesApart(m: Manifest, i: nat, j: nat)
    requires Separate(m) && IsFileAt(m, i) && IsFileAt(m, j) && i != j
    ensures m.entries[i].path != m.entries[j].path
    ensures PartName(m.entries[i].path) != PartName(m.entries[j].path)
    ensures m.entries[i].path != PartName(m.entries[j].path) && m.entries[j].path != PartName(m.entries[i].path)
  {
    assert !Aliases(m, i, j) && !Aliases(m, j, i);
    assert m.entries[i].path == PartName(m.entries[i].path)[..|m.entries[i].path|];
    assert m.entries[j].path == PartName(m.entries[j].path)[..|m.entries[j].path|];
  }

  lemma OwnNamesApart(path: string)
    ensures path != PartName(path)
  {
    assert |PartName(path)| == |path| + 5;
  }

  lemma OnlyNamesKeepsOthers(m: Manifest, before: map<string, Bytes>, after: map<string, Bytes>, i: nat)
    requires Separate(m) && IsFileAt(m, i) && OnlyNames(before, after, m.entries[i].path)
    ensures OthersKept(m, before, after, i)
  {
    forall j: nat | IsFileAt(m, j) && j != i
      ensures FinalAt(m, after, j) == FinalAt(m, before, j) && PartAt(m, after, j) == PartAt(m, before, j)
    {
      NamesApart(m, i, j);
    }
  }

  lemma OthersKeptKeepsPublished(hash: Hash, m: Manifest, before: map<string, Bytes>, after: map<string, Bytes>,
                                 i: nat, k: nat)
    requires OthersKept(m, before, after, i) && k <= i && PublishedBefore(hash, m, before, k)
    ensures PublishedBefore(hash, m, after, k)
  {
    forall j | 0 <= j < k && IsFileAt(m, j) ensures CleanlyPublished(hash, m, after, j) {
      assert CleanlyPublished(hash, m, before, j);
    }
  }

  // ---------------------------------------------------------------- one entry

  /** What judging a file leaves: published and clean, a short part, or nothing at all. */
  lemma SettleOutcome(hash: Hash, m: Manifest, d: Disk, i: nat)
    requires Separate(m) && IsFileAt(m, i)
    ensures var (d', verdict) := SettleFile(hash, d, m.entries[i]);
            && OthersKept(m, d.files, d'.files, i)
            && (match verdict
                case Verified => CleanlyPublished(hash, m, d'.files, i)
                case Partial(n) => FinalAt(m, d'.files, i).None? && PartAt(m, d'.files, i).Some?
                                   && |PartAt(m, d'.files, i).value| == n < m.entries[i].size
                case Broken => FinalAt(m, d'.files, i).None? && PartAt(m, d'.files, i).None?)
  {
    hide Separate, OthersKept, SettleFile;
    SettleNames(hash, d, m.entries[i]);
    OnlyNamesKeepsOthers(m, d.files, SettleFile(hash, d, m.entries[i]).0.files, i);
  }

  /** Judging a file changes its own two names only. */
  lemma SettleNames(hash: Hash, d: Disk, e: Entry)
    requires e.File?
    ensures var (d', verdict) := SettleFile(hash, d, e);
            && OnlyNames(d.files, d'.files, e.path)
            && (verdict.Partial? ==> verdict.length < e.size)
            && (match verdict
                case Verified => e.path in d'.files && Matches(hash, e, d'.files[e.path])
                  && PartName(e.path) !in d'.files
                case Partial(n) => e.path !in d'.files && PartName(e.path) in d'.files
                  && |d'.files[PartName(e.path)]| == n
                case Broken => e.path !in d'.files && PartName(e.path) !in d'.files)
  {
    OwnNamesApart(e.path);
  }

  lemma DiscardOutcome(m: Manifest, d: Disk, i: nat)
    requires Separate(m) && IsFileAt(m, i)
    ensures var d' := Discard(d, m.entries[i].path);
            && OthersKept(m, d.files, d'.files, i)
            && FinalAt(m, d'.files, i).None? && PartAt(m, d'.files, i).None?
  {
    OwnNamesApart(m.entries[i].path);
    OnlyNamesKeepsOthers(m, d.files, Discard(d, m.entries[i].path).files, i);
  }

  lemma JudgingNames(hash: Hash, d: Disk, e: Entry, name: string)
    requires e.File? && name !in d.files && name != e.path
    ensures name !in SettleFile(hash, d, e).0.files && name !in Discard(d, e.path).files
  {
  }

  lemma AfterVerdictPlace(m: Manifest, i: nat, verdict: Verdict)
    requires IsFileAt(m, i) && (verdict.Partial? ==> verdict.length < m.entries[i].size)
    ensures var (gap, cp) := AfterVerdict(m, i, verdict, CheckpointBeforeEntry(m, i));
            if gap then NextFilePosition(m, cp).Ok? && NextFilePosition(m, cp).value.Some?
              && NextFilePosition(m, cp).value.value.index == i
            else cp == CheckpointBeforeEntry(m, i + 1)
  {
    RollbackRestartsFile(m, i);
    LastFileIs(m.entries, i + 1, i);
  }

  // ---------------------------------------------------------------- the whole sweep

  /** What holds when the sweep reaches entry `i`. */
  ghost predicate SweepStage(hash: Hash, m: Manifest, files: map<string, Bytes>, i: nat, gap: bool,
                             cp: Option<Checkpoint>) {
    && i <= |m.entries|
    && if gap then NextFilePosition(m, cp).Ok? && NextFilePosition(m, cp).value.Some?
    && InStepUpTo(hash, m, files, cp, i)
       else cp == CheckpointBeforeEntry(m, i) && PublishedBefore(hash, m, files, i)
  }

  lemma StageAfterDirectory(hash: Hash, m: Manifest, files: map<string, Bytes>, i: nat, gap: bool,
                            cp: Option<Checkpoint>)
    requires SweepStage(hash, m, files, i, gap, cp) && i < |m.entries| && m.entries[i].Directory?
    ensures SweepStage(hash, m, files, i + 1, gap, cp)
  {
  }

  lemma StageAfterDiscard(hash: Hash, m: Manifest, d: Disk, i: nat, cp: Option<Checkpoint>)
    requires Separate(m) && SweepStage(hash, m, d.files, i, true, cp) && IsFileAt(m, i)
    ensures SweepStage(hash, m, Discard(d, m.entries[i].path).files, i + 1, true, cp)
  {
    DiscardOutcome(m, d, i);
    var d' := Discard(d, m.entries[i].path);
    OthersKeptKeepsPublished(hash, m, d.files, d'.files, i, NextFilePosition(m, cp).value.value.index);
  }

  lemma StageAfterSettle(hash: Hash, m: Manifest, d: Disk, i: nat, cp: Option<Checkpoint>)
    requires Separate(m) && SweepStage(hash, m, d.files, i, false, cp) && IsFileAt(m, i)
    ensures var (d', verdict) := SettleFile(hash, d, m.entries[i]);
            var (gap', cp') := AfterVerdict(m, i, verdict, cp);
            SweepStage(hash, m, d'.files, i + 1, gap', cp')
  {
    SettleOutcome(hash, m, d, i);
    var (d', verdict) := SettleFile(hash, d, m.entries[i]);
    OthersKeptKeepsPublished(hash, m, d.files, d'.files, i, i);
    RollbackRestartsFile(m, i);
  }

  lemma StageAtEnd(hash: Hash, m: Manifest, files: map<string, Bytes>, gap: bool, cp: Option<Checkpoint>)
    requires WellFormed(m) && SweepStage(hash, m, files, |m.entries|, gap, cp)
    ensures InStep(hash, m, files, cp)
  {
    if !gap { AllPublishedIsInStep(hash, m, files); }
  }

  const UNSAFE_FILE: string := "receive destination contains an unsafe file"

  /**
   * Where the sweep ends, at the end of the manifest or at the first obstructed file, everything before it is in
   * order.
   */
  lemma {:induction false} SweepStops(hash: Hash, m: Manifest, d: Disk, i: nat, gap: bool, cp: Option<Checkpoint>)
    returns (k: nat, gapThere: bool, there: Option<Checkpoint>)
    requires Separate(m) && i <= |m.entries| && SweepStage(hash, m, d.files, i, gap, cp)
    ensures i <= k <= |m.entries| && (forall l: nat :: i <= l < k && IsFileAt(m, l) ==> !Obstructed(m, l))
    ensures k < |m.entries| ==> IsFileAt(m, k) && Obstructed(m, k)
    ensures SweepStage(hash, m, Reconcile(hash, m, d, i, gap, cp).0.files, k, gapThere, there)
    ensures Reconcile(hash, m, d, i, gap, cp).1 == if k == |m.entries| then Ok(there) else Err(UNSAFE_FILE)
    decreases |m.entries| - i
  {
    hide SweepStage, SettleFile, Discard, Obstructed, Separate;
    if i == |m.entries| || (IsFileAt(m, i) && Obstructed(m, i)) {
      k, gapThere, there := i, gap, cp;
    } else if m.entries[i].Directory? {
      StageAfterDirectory(hash, m, d.files, i, gap, cp);
      k, gapThere, there := SweepStops(hash, m, d, i + 1, gap, cp);
    } else if gap {
      StageAfterDiscard(hash, m, d, i, cp);
      k, gapThere, there := SweepStops(hash, m, Discard(d, m.entries[i].path), i + 1, true, cp);
    } else {
      StageAfterSettle(hash, m, d, i, cp);
      var (d', verdict) := SettleFile(hash, d, m.entries[i]);
      var (gap', cp') := AfterVerdict(m, i, verdict, cp);
      k, gapThere, there := SweepStops(hash, m, d', i + 1, gap', cp');
    }
  }

  /** With every file published, the checkpoint before the end leaves nothing to receive. */
  lemma AllPublishedIsInStep(hash: Hash, m: Manifest, files: map<string, Bytes>)
    requires WellFormed(m) && PublishedBefore(hash, m, files, |m.entries|)
    ensures NextFilePosition(m, CheckpointBeforeEntry(m, |m.entries|)) == Ok(None)
    ensures InStep(hash, m, files, CheckpointBeforeEntry(m, |m.entries|))
  {
    PositionAfterPrefix(m, |m.entries|);
  }

  /** From any disk at all, the sweep ends with checkpoint and disk in step, unless a directory is in its way. */
  lemma ReconcileEndsInStep(hash: Hash, m: Manifest, d: Disk)
    requires Separate(m)
    ensures var (d', r) := Reconciled(hash, m, d);
            && (r.Ok? <==> NoPartDirectory(m))
            && (r.Ok? ==> InStep(hash, m, d'.files, r.value))
  {
    ObstructedIff(m);
    hide Obstructed, InStep;
    var k, gap, cp := SweepStops(hash, m, d, 0, false, None);
    if k == |m.entries| {
      StageAtEnd(hash, m, Reconciled(hash, m, d).0.files, gap, cp);
    }
  }

  // ---------------------------------------------------------------- fixed points

  lemma {:induction false} SweepPassesNothing(hash: Hash, m: Manifest, d: Disk, i: nat, k: nat, cp: Option<Checkpoint>)
    requires i <= k <= |m.entries| && NothingLive(m, d.files, i, k)
    requires forall l: nat :: i <= l < k && IsFileAt(m, l) ==> !Obstructed(m, l)
    ensures Reconcile(hash, m, d, i, true, cp) == Reconcile(hash, m, d, k, true, cp)
    decreases k - i
  {
    hide Obstructed;
    if i < k {
      assert IsFileAt(m, i) ==> Discard(d, m.entries[i].path) == d;
      SweepPassesNothing(hash, m, d, i + 1, k, cp);
    }
  }

  /** An open file is judged to be exactly what its checkpoint says, and left alone. */
  lemma SettleLeavesOpenFileAlone(hash: Hash, m: Manifest, d: Disk, cp: Option<Checkpoint>)
    requires NextFilePosition(m, cp).Ok? && NextFilePosition(m, cp).value.Some?
    requires OpenAt(m, d.files, cp, NextFilePosition(m, cp).value.value)
    ensures var p := NextFilePosition(m, cp).value.value;
            var (d', verdict) := SettleFile(hash, d, m.entries[p.index]);
            && d' == d && verdict != Verified
            && AfterVerdict(m, p.index, verdict, CheckpointBeforeEntry(m, p.index)) == (true, cp)
  {
    PositionFixesCheckpoint(m, cp);
  }

  lemma SettleLeavesPublishedFileAlone(hash: Hash, m: Manifest, d: Disk, i: nat)
    requires IsFileAt(m, i) && CleanlyPublished(hash, m, d.files, i)
    ensures SettleFile(hash, d, m.entries[i]) == (d, Verified)
  {
  }

  /** A sweep over entries in order reaches their end with the disk untouched. */
  lemma {:induction false} SweepPassesStage(hash: Hash, m: Manifest, d: Disk, i: nat, k: nat, gap: bool,
                                            cp: Option<Checkpoint>)
    requires i <= k && SweepStage(hash, m, d.files, k, gap, cp)
    requires gap ==> i <= NextFilePosition(m, cp).value.value.index
    requires forall l: nat :: i <= l < k && IsFileAt(m, l) ==> !Obstructed(m, l)
    ensures Reconcile(hash, m, d, i, false, CheckpointBeforeEntry(m, i)) == Reconcile(hash, m, d, k, gap, cp)
    decreases k - i
  {
    hide SettleFile, Obstructed;
    if i == k {
      assert !gap;
    } else if m.entries[i].Directory? {
      SweepPassesStage(hash, m, d, i + 1, k, gap, cp);
    } else if gap && NextFilePosition(m, cp).value.value.index == i {
      SettleLeavesOpenFileAlone(hash, m, d, cp);
      SweepPassesNothing(hash, m, d, i + 1, k, cp);
    } else {
      assert CleanlyPublished(hash, m, d.files, i);
      SettleLeavesPublishedFileAlone(hash, m, d, i);
      SweepPassesStage(hash, m, d, i + 1, k, gap, cp);
    }
  }

  lemma InStepIsStage(hash: Hash, m: Manifest, files: map<string, Bytes>, cp: Option<Checkpoint>)
    requires InStep(hash, m, files, cp)
    ensures SweepStage(hash, m, files, |m.entries|, NextFilePosition(m, cp).value.Some?, cp)
  {
    PositionFixesCheckpoint(m, cp);
  }

  /** The disks a sweep leaves untouched, with the checkpoint it reports, are exactly those in step. */
  lemma ReconcileFixesExactlyInStep(hash: Hash, m: Manifest, d: Disk, cp: Option<Checkpoint>)
    requires Separate(m)
    ensures NoPartDirectory(m) && InStep(hash, m, d.files, cp) <==> Reconciled(hash, m, d) == (d, Ok(cp))
  {
    ReconcileEndsInStep(hash, m, d);
    if NoPartDirectory(m) && InStep(hash, m, d.files, cp) {
      ObstructedIff(m);
      InStepIsStage(hash, m, d.files, cp);
      hide SweepStage, InStep, Obstructed;
      SweepPassesStage(hash, m, d, 0, |m.entries|, NextFilePosition(m, cp).value.Some?, cp);
    }
  }

  /** Even a sweep that gives up leaves a published transfer alone. */
  lemma {:induction false} SweepLeavesPublishedAlone(hash: Hash, m: Manifest, d: Disk, i: nat, cp: Option<Checkpoint>)
    requires i <= |m.entries| && PublishedBefore(hash, m, d.files, |m.entries|)
    ensures Reconcile(hash, m, d, i, false, cp).0 == d
    decreases |m.entries| - i
  {
    hide SettleFile, Obstructed, CheckpointAfterChunk;
    if i < |m.entries| {
      if IsFileAt(m, i) {
        assert CleanlyPublished(hash, m, d.files, i);
        SettleLeavesPublishedFileAlone(hash, m, d, i);
        SweepLeavesPublishedAlone(hash, m, d, i + 1, Some(CheckpointAfterChunk(m, i, m.entries[i].size)));
      } else {
        SweepLeavesPublishedAlone(hash, m, d, i + 1, cp);
      }
    }
  }

  /** Sweeping twice is sweeping once, also when the sweep gives up. */
  lemma ReconcileIdempotent(hash: Hash, m: Manifest, d: Disk)
    requires Separate(m)
    ensures var (d', r) := Reconciled(hash, m, d); Reconciled(hash, m, d') == (d', r)
  {
    hide Obstructed;
    var k, gap, cp := SweepStops(hash, m, d, 0, false, None);
    SweepPassesStage(hash, m, Reconciled(hash, m, d).0, 0, k, gap, cp);
  }

  // ---------------------------------------------------------------- conservation

  function Copies(slot: Option<Bytes>, content: Bytes): nat {
    if slot == Some(content) then 1 else 0
  }

  function NamedCopies(files: map<string, Bytes>, name: string, content: Bytes): nat {
    Copies(if name in files then Some(files[name]) else None, content)
  }

  /** How often `content` is under the two names of one file, or moved aside. */
  function OwnCopies(d: Disk, path: string, content: Bytes): nat {
    NamedCopies(d.files, path, content) + NamedCopies(d.files, PartName(path), content) + d.quarantined[content]
  }

  /** How often `content` is live under the names of the file entries below `n`. */
  function LiveCopies(m: Manifest, files: map<string, Bytes>, n: nat, content: Bytes): nat
    requires n <= |m.entries|
  {
    if n == 0 then 0
    else if m.entries[n - 1].Directory? then LiveCopies(m, files, n - 1, content)
    else LiveCopies(m, files, n - 1, content) + FileCopies(m, files, n - 1, content)
  }

  function FileCopies(m: Manifest, files: map<string, Bytes>, i: nat, content: Bytes): nat
    requires i < |m.entries|
  {
    Copies(FinalAt(m, files, i), content) + Copies(PartAt(m, files, i), content)
  }

  /** How often the receiver holds `content`, live or moved aside. */
  function AllCopies(m: Manifest, d: Disk, content: Bytes): nat {
    LiveCopies(m, d.files, |m.entries|, content) + d.quarantined[content]
  }

  /** A change confined to file `i` changes the live copies by what it changes there. */
  lemma {:induction false} LocalChange(m: Manifest, before: map<string, Bytes>, after: map<string, Bytes>, i: nat,
                                       n: nat, content: Bytes)
    requires IsFileAt(m, i) && n <= |m.entries| && OthersKept(m, before, after, i)
    ensures LiveCopies(m, after, n, content) - LiveCopies(m, before, n, content) ==
            if i < n then FileCopies(m, after, i, content) - FileCopies(m, before, i, content) else 0
  {
    if n > 0 {
      LocalChange(m, before, after, i, n - 1, content);
      assert IsFileAt(m, n - 1) && n - 1 != i ==> FinalAt(m, after, n - 1) == FinalAt(m, before, n - 1);
    }
  }

  lemma DiscardConserves(m: Manifest, d: Disk, i: nat, content: Bytes)
    requires Separate(m) && IsFileAt(m, i)
    ensures AllCopies(m, Discard(d, m.entries[i].path), content) == AllCopies(m, d, content)
  {
    OwnNamesApart(m.entries[i].path);
    DiscardOutcome(m, d, i);
    LocalChange(m, d.files, Discard(d, m.entries[i].path).files, i, |m.entries|, content);
  }

  lemma SettleConserves(hash: Hash, m: Manifest, d: Disk, i: nat, content: Bytes)
    requires Separate(m) && IsFileAt(m, i)
    ensures AllCopies(m, SettleFile(hash, d, m.entries[i]).0, content) == AllCopies(m, d, content)
  {
    hide Separate, OthersKept, LiveCopies;
    SettleOutcome(hash, m, d, i);
    LocalChange(m, d.files, SettleFile(hash, d, m.entries[i]).0.files, i, |m.entries|, content);
    hide SettleFile;
    SettleKeepsCopies(hash, d, m.entries[i], content);
  }

  /** What leaves the two names of a file is moved aside. */
  lemma SettleKeepsCopies(hash: Hash, d: Disk, e: Entry, content: Bytes)
    requires e.File?
    ensures OwnCopies(SettleFile(hash, d, e).0, e.path, content) == OwnCopies(d, e.path, content)
  {
    hide OwnCopies, Quarantine, Publish;
    QuarantineKeepsCopies(d, e.path, content);
    SettlePartKeepsCopies(hash, d, e, content);
    SettlePartKeepsCopies(hash, Quarantine(d, e.path), e, content);
  }

  lemma SettlePartKeepsCopies(hash: Hash, d: Disk, e: Entry, content: Bytes)
    requires e.File?
    ensures e.path !in d.files ==> OwnCopies(SettlePart(hash, d, e).0, e.path, content) == OwnCopies(d, e.path, content)
  {
    hide OwnCopies, Quarantine, Publish;
    QuarantineKeepsCopies(d, e.path, content);
    PublishKeepsCopies(d, e.path, content);
  }

  lemma QuarantineKeepsCopies(d: Disk, path: string, content: Bytes)
    ensures OwnCopies(Quarantine(d, path), path, content) == OwnCopies(d, path, content)
    ensures OwnCopies(Quarantine(d, PartName(path)), path, content) == OwnCopies(d, path, content)
    ensures path !in Quarantine(d, path).files
  {
    OwnNamesApart(path);
  }

  lemma PublishKeepsCopies(d: Disk, path: string, content: Bytes)
    ensures path !in d.files && PartName(path) in d.files ==>
              OwnCopies(Publish(d, path), path, content) == OwnCopies(d, path, content)
  {
    OwnNamesApart(path);
  }

  lemma {:induction false} SweepConserves(hash: Hash, m: Manifest, d: Disk, i: nat, gap: bool, cp: Option<Checkpoint>,
                                          content: Bytes)
    requires Separate(m) && i <= |m.entries|
    ensures AllCopies(m, Reconcile(hash, m, d, i, gap, cp).0, content) == AllCopies(m, d, content)
    decreases |m.entries| - i
  {
    hide SettleFile, Discard, AllCopies, Obstructed, Separate;
    if i == |m.entries| || (m.entries[i].File? && Obstructed(m, i)) {
    } else if m.entries[i].Directory? {
      SweepConserves(hash, m, d, i + 1, gap, cp, content);
    } else if gap {
      DiscardConserves(m, d, i, content);
      SweepConserves(hash, m, Discard(d, m.entries[i].path), i + 1, true, cp, content);
    } else {
      SettleConserves(hash, m, d, i, content);
      var (d', verdict) := SettleFile(hash, d, m.entries[i]);
      var (gap', cp') := AfterVerdict(m, i, verdict, cp);
      SweepConserves(hash, m, d', i + 1, gap', cp', content);
    }
  }

  /** The sweep loses no bytes: whatever leaves the live names is in quarantine, and nothing appears from nowhere. */
  lemma ReconcileConserves(hash: Hash, m: Manifest, d: Disk, content: Bytes)
    requires Separate(m)
    ensures AllCopies(m, Reconciled(hash, m, d).0, content) == AllCopies(m, d, content)
  {
    SweepConserves(hash, m, d, 0, false, None, content);
  }

  // ---------------------------------------------------------------- the aliasing manifests

  /** An admissible manifest in which the first file's part is the second file's destination. */
  function AliasedManifest(hash: Hash): Manifest {
    Manifest(0, 0, None, [File("a", 2, hash([1, 2])), File("a.part", 1, hash([3]))], 3)
  }

  /**
   * Without the naming condition the sweep can report a checkpoint into a part
   * it has just moved aside: the second entry's destination is the first entry's part.
   */
  lemma AliasBreaksSweep(hash: Hash)
    ensures var m := AliasedManifest(hash);
            var (d', cp) := Reconciled(hash, m, Disk(map["a.part" := [1]], multiset{}));
            && WellFormed(m) && !NoPartAlias(m)
            && cp == Ok(Some(Checkpoint(0, 0, 1, 1)))
            && PartAt(m, d'.files, 0) == None
            && !InStep(hash, m, d'.files, cp.value)
  {
    var m := AliasedManifest(hash);
    var d := Disk(map["a.part" := [1]], multiset{});
    assert BytesBefore(m.entries, 1) == 2;
    assert PartName("a") == "a.part" && PartName("a.part") == "a.part.part";
    assert Aliases(m, 0, 1) && !Obstructed(m, 0) && !Obstructed(m, 1);
    assert SettleFile(hash, d, m.entries[0]) == (d, Partial(1));
    var d' := Discard(d, "a.part");
    assert "a.part" !in d'.files;
    assert Reconcile(hash, m, d, 1, true, Some(CheckpointAfterChunk(m, 0, 1)))
           == (d', Ok(Some(CheckpointAfterChunk(m, 0, 1))));
  }

  /** The live names are exactly the destinations, each with its declared content: a finished transfer. */
  ghost predicate ExactlyPublished(hash: Hash, m: Manifest, files: map<string, Bytes>) {
    && (forall i: nat ::
          IsFileAt(m, i) ==> FinalAt(m, files, i).Some? && Matches(hash, m.entries[i], FinalAt(m, files, i).value))
    && (forall name :: name in files ==> exists i: nat :: IsFileAt(m, i) && m.entries[i].path == name)
  }

  lemma {:induction false} QuarantineOnlyGrows(hash: Hash, m: Manifest, d: Disk, i: nat, gap: bool,
                                               cp: Option<Checkpoint>)
    requires i <= |m.entries|
    ensures |Reconcile(hash, m, d, i, gap, cp).0.quarantined| >= |d.quarantined|
    decreases |m.entries| - i
  {
    hide Obstructed;
    if i == |m.entries| || (m.entries[i].File? && Obstructed(m, i)) {
    } else if m.entries[i].Directory? {
      QuarantineOnlyGrows(hash, m, d, i + 1, gap, cp);
    } else if gap {
      QuarantineOnlyGrows(hash, m, Discard(d, m.entries[i].path), i + 1, true, cp);
    } else {
      var (d', verdict) := SettleFile(hash, d, m.entries[i]);
      var (gap', cp') := AfterVerdict(m, i, verdict, cp);
      QuarantineOnlyGrows(hash, m, d', i + 1, gap', cp');
    }
  }

  /** From a finished transfer the sweep moves something aside as soon as one part name is live. */
  lemma {:induction false} LivePartIsMovedAside(hash: Hash, m: Manifest, d: Disk, i: nat, part: nat)
    requires ExactlyPublished(hash, m, d.files) && i <= part && IsFileAt(m, part) && PartAt(m, d.files, part).Some?
    requires forall k: nat :: IsFileAt(m, k) ==> !Obstructed(m, k)
    ensures |Reconcile(hash, m, d, i, false, CheckpointBeforeEntry(m, i)).0.quarantined| > |d.quarantined|
    decreases |m.entries| - i
  {
    hide Obstructed;
    if m.entries[i].Directory? {
      LivePartIsMovedAside(hash, m, d, i + 1, part);
    } else {
      var (d', verdict) := SettleFile(hash, d, m.entries[i]);
      assert FinalAt(m, d.files, i).Some?;
      if PartAt(m, d.files, i).None? {
        assert d' == d;
        LivePartIsMovedAside(hash, m, d, i + 1, part);
      } else {
        QuarantineOnlyGrows(hash, m, d', i + 1, false, Some(CheckpointAfterChunk(m, i, m.entries[i].size)));
      }
    }
  }

  /**
   * A finished transfer survives the sweep of a retry exactly when no file is
   * named like another file's part.
   */
  lemma FinishedSurvivesIffNoAlias(hash: Hash, m: Manifest, d: Disk)
    requires WellFormed(m) && NoPartDirectory(m) && ExactlyPublished(hash, m, d.files)
    ensures Reconciled(hash, m, d).0 == d <==> NoPartAlias(m)
  {
    ObstructedIff(m);
    if NoPartAlias(m) {
      forall i | 0 <= i < |m.entries| && IsFileAt(m, i) ensures CleanlyPublished(hash, m, d.files, i) {
        UnaliasedHasNoPart(hash, m, d.files, i);
      }
      SweepLeavesPublishedAlone(hash, m, d, 0, None);
    } else {
      var j: nat, i: nat :| Aliases(m, j, i);
      assert FinalAt(m, d.files, i).Some?;
      LivePartIsMovedAside(hash, m, d, 0, j);
    }
  }

  lemma UnaliasedHasNoPart(hash: Hash, m: Manifest, files: map<string, Bytes>, i: nat)
    requires ExactlyPublished(hash, m, files) && NoPartAlias(m) && IsFileAt(m, i)
    ensures CleanlyPublished(hash, m, files, i)
  {
    if PartAt(m, files, i).Some? {
      var k: nat :| IsFileAt(m, k) && m.entries[k].path == PartName(m.entries[i].path);
      assert Aliases(m, i, k);
    }
  }
}
