/**
 * What the receiver's sweep leaves of a disk, told from the disk alone:
 * apps/desktop/src/file_transfer.rs:1537-1606.
 *
 * A file can be passed when its destination, or failing that its part, has the
 * declared length and digest.  The first file that cannot be passed is where
 * reception resumes: at the length of its part when that part is short, at its
 * first byte otherwise, whatever lay at its destination.
 */
module SweepOutcome {
  import opened Wrappers
  import opened TransferCheckpoint
  import opened ReceiveDisk
  import opened ReceiveSession

  // ---------------------------------------------------------------- the files a sweep can pass

  /** The slot holds exactly the declared file. */
  predicate Holds(hash: Hash, e: Entry, slot: Option<Bytes>) {
    slot.Some? && Matches(hash, e, slot.value)
  }

  /** The slot holds the beginning of a file still being received. */
  predicate HoldsShort(e: Entry, slot: Option<Bytes>) {
    e.File? && slot.Some? && |slot.value| < e.size
  }

  predicate Passable(hash: Hash, m: Manifest, files: map<string, Bytes>, i: nat)
    requires IsFileAt(m, i)
  {
    Holds(hash, m.entries[i], FinalAt(m, files, i)) || Holds(hash, m.entries[i], PartAt(m, files, i))
  }

  /** Every file before `i` can be passed. */
  ghost predicate Reached(hash: Hash, m: Manifest, files: map<string, Bytes>, i: nat) {
    forall j: nat :: j < i && IsFileAt(m, j) ==> Passable(hash, m, files, j)
  }

  /** What belongs at the destination of file `i` after a sweep of `files`. */
  ghost function FinalAfter(hash: Hash, m: Manifest, files: map<string, Bytes>, i: nat): Option<Bytes>
    requires IsFileAt(m, i)
  {
    if !Reached(hash, m, files, i) then None
    else if Holds(hash, m.entries[i], FinalAt(m, files, i)) then FinalAt(m, files, i)
    else if Holds(hash, m.entries[i], PartAt(m, files, i)) then PartAt(m, files, i)
    else None
  }

  /** What belongs at its part name: a short part, exactly at the first file that cannot be passed. */
  ghost function PartAfter(hash: Hash, m: Manifest, files: map<string, Bytes>, i: nat): Option<Bytes>
    requires IsFileAt(m, i)
  {
    if Reached(hash, m, files, i) && !Passable(hash, m, files, i) && HoldsShort(m.entries[i], PartAt(m, files, i))
    then PartAt(m, files, i)
    else None
  }

  /** Where reception resumes, given the first file that cannot be passed. */
  function ResumeAt(m: Manifest, files: map<string, Bytes>, k: nat): Option<Checkpoint>
    requires k <= |m.entries|
  {
    if IsFileAt(m, k) && HoldsShort(m.entries[k], PartAt(m, files, k))
    then Some(CheckpointAfterChunk(m, k, |PartAt(m, files, k).value|))
    else CheckpointBeforeEntry(m, k)
  }

  // ---------------------------------------------------------------- one file

  /** The names of a file that is judged while every earlier one was passed. */
  ghost predicate Judged(hash: Hash, m: Manifest, before: map<string, Bytes>, after: map<string, Bytes>, i: nat,
                         verdict: Verdict)
    requires IsFileAt(m, i)
  {
    var final, part := FinalAt(m, before, i), PartAt(m, before, i);
    match verdict
    case Verified =>
      && Passable(hash, m, before, i)
      && FinalAt(m, after, i) == (if Holds(hash, m.entries[i], final) then final else part)
      && PartAt(m, after, i) == None
    case Partial(n) =>
      && !Passable(hash, m, before, i) && HoldsShort(m.entries[i], part) && n == |part.value|
      && FinalAt(m, after, i) == None && PartAt(m, after, i) == part
    case Broken =>
      && !Passable(hash, m, before, i) && !HoldsShort(m.entries[i], part)
      && FinalAt(m, after, i) == None && PartAt(m, after, i) == None
  }

  /** A file is given up only for want of its bytes: its destination, its full part or its short part decide. */
  lemma SettleJudges(hash: Hash, m: Manifest, d: Disk, i: nat)
    requires IsFileAt(m, i)
    ensures var (d', verdict) := SettleFile(hash, d, m.entries[i]);
            Judged(hash, m, d.files, d'.files, i, verdict)
  {
    OwnNamesApart(m.entries[i].path);
  }

  // ---------------------------------------------------------------- the sweep so far

  /** Files below `i` are as they belong, the others as they were. */
  ghost predicate SweptUpTo(hash: Hash, m: Manifest, before: map<string, Bytes>, now: map<string, Bytes>, i: nat) {
    forall j: nat :: IsFileAt(m, j) ==>
      if j < i
      then FinalAt(m, now, j) == FinalAfter(hash, m, before, j) && PartAt(m, now, j) == PartAfter(hash, m, before, j)
      else FinalAt(m, now, j) == FinalAt(m, before, j) && PartAt(m, now, j) == PartAt(m, before, j)
  }

  /** The first file among those below `n` that cannot be passed, or `n`. */
  ghost predicate StopsAt(hash: Hash, m: Manifest, files: map<string, Bytes>, n: nat, k: nat) {
    && k <= n
    && Reached(hash, m, files, k)
    && (k < n ==> IsFileAt(m, k) && !Passable(hash, m, files, k))
  }

  /** The flag and checkpoint of the sweep on reaching entry `i`, told from the disk it started from. */
  ghost predicate Carries(hash: Hash, m: Manifest, files: map<string, Bytes>, i: nat, gap: bool,
                          cp: Option<Checkpoint>)
  {
    && i <= |m.entries|
    && exists k: nat :: StopsAt(hash, m, files, i, k) && (gap <==> k < i)
                        && cp == if gap then ResumeAt(m, files, k) else CheckpointBeforeEntry(m, i)
  }

  lemma GapMeansUnreached(hash: Hash, m: Manifest, files: map<string, Bytes>, i: nat, gap: bool,
                          cp: Option<Checkpoint>)
    requires Carries(hash, m, files, i, gap, cp)
    ensures gap <==> !Reached(hash, m, files, i)
  {
  }

  lemma CarriesPastDirectory(hash: Hash, m: Manifest, files: map<string, Bytes>, i: nat, gap: bool,
                             cp: Option<Checkpoint>)
    requires Carries(hash, m, files, i, gap, cp) && i < |m.entries| && (m.entries[i].Directory? || gap)
    ensures Carries(hash, m, files, i + 1, gap, cp)
  {
    var k: nat :| StopsAt(hash, m, files, i, k) && (gap <==> k < i)
                  && cp == if gap then ResumeAt(m, files, k) else CheckpointBeforeEntry(m, i);
    assert StopsAt(hash, m, files, i + 1, if gap then k else i + 1);
  }

  lemma CarriesPastFile(hash: Hash, m: Manifest, files: map<string, Bytes>, i: nat, cp: Option<Checkpoint>,
                        after: map<string, Bytes>, verdict: Verdict)
    requires Carries(hash, m, files, i, false, cp) && IsFileAt(m, i)
    requires Judged(hash, m, files, after, i, verdict)
    ensures var (gap', cp') := AfterVerdict(m, i, verdict, cp); Carries(hash, m, files, i + 1, gap', cp')
  {
    LastFileIs(m.entries, i + 1, i);
    assert StopsAt(hash, m, files, i + 1, if verdict.Verified? then i + 1 else i);
  }

  lemma SweptPastDirectory(hash: Hash, m: Manifest, before: map<string, Bytes>, now: map<string, Bytes>, i: nat)
    requires SweptUpTo(hash, m, before, now, i) && i < |m.entries| && m.entries[i].Directory?
    ensures SweptUpTo(hash, m, before, now, i + 1)
  {
  }

  lemma SweptPastDiscarded(hash: Hash, m: Manifest, before: map<string, Bytes>, d: Disk, i: nat)
    requires Separate(m) && IsFileAt(m, i) && SweptUpTo(hash, m, before, d.files, i)
    requires !Reached(hash, m, before, i)
    ensures SweptUpTo(hash, m, before, Discard(d, m.entries[i].path).files, i + 1)
  {
    DiscardOutcome(m, d, i);
  }

  lemma SweptPastJudged(hash: Hash, m: Manifest, before: map<string, Bytes>, d: Disk, i: nat)
    requires Separate(m) && IsFileAt(m, i) && SweptUpTo(hash, m, before, d.files, i)
    requires Reached(hash, m, before, i)
    ensures var (d', verdict) := SettleFile(hash, d, m.entries[i]);
            SweptUpTo(hash, m, before, d'.files, i + 1) && Judged(hash, m, before, d'.files, i, verdict)
  {
    hide SettleFile, Separate;
    var (d', verdict) := SettleFile(hash, d, m.entries[i]);
    SettleJudges(hash, m, d, i);
    SettleOutcome(hash, m, d, i);
  }

  // ---------------------------------------------------------------- the whole sweep

  /** Where the sweep of `m` gives up: its first obstructed file, or the end. */
  ghost predicate SweepEndsAt(m: Manifest, i: nat, n: nat) {
    && i <= n <= |m.entries|
    && (forall l: nat :: i <= l < n && IsFileAt(m, l) ==> !Obstructed(m, l))
    && (n < |m.entries| ==> IsFileAt(m, n) && Obstructed(m, n))
  }

  lemma {:induction false} SweepCarries(hash: Hash, m: Manifest, before: map<string, Bytes>, d: Disk, i: nat, gap: bool,
                                        cp: Option<Checkpoint>, n: nat)
    requires Separate(m) && SweepEndsAt(m, i, n)
    requires SweptUpTo(hash, m, before, d.files, i) && Carries(hash, m, before, i, gap, cp)
    ensures SweptUpTo(hash, m, before, Reconcile(hash, m, d, i, gap, cp).0.files, n)
    ensures n == |m.entries| ==> Reconcile(hash, m, d, i, gap, cp).1.Ok?
                                 && exists gap' :: Carries(hash, m, before, n, gap',
                                                           Reconcile(hash, m, d, i, gap, cp).1.value)
    decreases |m.entries| - i
  {
    hide Separate, SweptUpTo, Carries, SettleFile, Discard, Obstructed, Judged;
    GapMeansUnreached(hash, m, before, i, gap, cp);
    if i == n {
    } else if m.entries[i].Directory? {
      CarriesPastDirectory(hash, m, before, i, gap, cp);
      SweptPastDirectory(hash, m, before, d.files, i);
      SweepCarries(hash, m, before, d, i + 1, gap, cp, n);
    } else if gap {
      CarriesPastDirectory(hash, m, before, i, gap, cp);
      SweptPastDiscarded(hash, m, before, d, i);
      SweepCarries(hash, m, before, Discard(d, m.entries[i].path), i + 1, true, cp, n);
    } else {
      SweptPastJudged(hash, m, before, d, i);
      var (d', verdict) := SettleFile(hash, d, m.entries[i]);
      CarriesPastFile(hash, m, before, i, cp, d'.files, verdict);
      var (gap', cp') := AfterVerdict(m, i, verdict, cp);
      SweepCarries(hash, m, before, d', i + 1, gap', cp', n);
    }
  }

  /**
   * The names a sweep leaves, up to the file it gives up at: a matching
   * destination stays, a full matching part takes the place of any other
   * destination, the short part of the first file that cannot be passed stays,
   * and nothing else does.
   */
  lemma SweepLeaves(hash: Hash, m: Manifest, d: Disk, n: nat, i: nat)
    requires Separate(m) && SweepEndsAt(m, 0, n) && IsFileAt(m, i)
    ensures var after := Reconciled(hash, m, d).0.files;
            if i < n
            then FinalAt(m, after, i) == FinalAfter(hash, m, d.files, i)
                 && PartAt(m, after, i) == PartAfter(hash, m, d.files, i)
            else FinalAt(m, after, i) == FinalAt(m, d.files, i) && PartAt(m, after, i) == PartAt(m, d.files, i)
  {
    StartCarries(hash, m, d.files);
    SweepCarries(hash, m, d.files, d, 0, false, None, n);
  }

  lemma StartCarries(hash: Hash, m: Manifest, files: map<string, Bytes>)
    ensures SweptUpTo(hash, m, files, files, 0) && Carries(hash, m, files, 0, false, None)
  {
    assert StopsAt(hash, m, files, 0, 0);
  }

  /** The sweep reports where the first file that cannot be passed resumes, or the end of the manifest. */
  lemma SweepResumesAtFirstGap(hash: Hash, m: Manifest, d: Disk, k: nat)
    requires Separate(m) && NoPartDirectory(m) && StopsAt(hash, m, d.files, |m.entries|, k)
    ensures Reconciled(hash, m, d).1 == Ok(ResumeAt(m, d.files, k))
  {
    ObstructedIff(m);
    hide Separate, SweptUpTo, Obstructed, Reconcile;
    StartCarries(hash, m, d.files);
    SweepCarries(hash, m, d.files, d, 0, false, None, |m.entries|);
  }

  /** A transfer that may be opened resumes at the first file its disk does not already hold, with that file's part. */
  lemma OpeningResumesAtFirstGap(hash: Hash, store: Store, m: Manifest, k: nat)
    requires Separate(m) && MayOpen(m, store) && StopsAt(hash, m, store.disk.files, |m.entries|, k)
    ensures var (store', r) := Prepare(hash, store, m);
            && r.Ok? && r.value.checkpoint == ResumeAt(m, store.disk.files, k)
            && (IsFileAt(m, k) ==> PartAt(m, store'.disk.files, k) == PartAfter(hash, m, store.disk.files, k))
  {
    hide Separate, Prepare, Reconciled, ResumeAt, PartAfter;
    PrepareSucceedsIff(hash, store, m);
    SweepResumesAtFirstGap(hash, m, store.disk, k);
    if IsFileAt(m, k) {
      EndsAtEnd(m);
      SweepLeaves(hash, m, store.disk, |m.entries|, k);
    }
  }

  lemma EndsAtEnd(m: Manifest)
    requires Separate(m) && NoPartDirectory(m)
    ensures SweepEndsAt(m, 0, |m.entries|)
  {
    ObstructedIff(m);
  }

  /** Neither the destination nor the part of any file. */
  ghost predicate Foreign(m: Manifest, name: string) {
    forall i: nat :: IsFileAt(m, i) ==> name != m.entries[i].path && name != PartName(m.entries[i].path)
  }

  predicate SameAt(before: map<string, Bytes>, after: map<string, Bytes>, name: string) {
    (name in after <==> name in before) && (name in after ==> after[name] == before[name])
  }

  lemma JudgingSparesForeign(hash: Hash, m: Manifest, d: Disk, i: nat, name: string)
    requires IsFileAt(m, i) && Foreign(m, name)
    ensures SameAt(d.files, SettleFile(hash, d, m.entries[i]).0.files, name)
    ensures SameAt(d.files, Discard(d, m.entries[i].path).files, name)
  {
    SettleNames(hash, d, m.entries[i]);
  }

  /** A sweep touches no other name, whatever the manifest. */
  lemma {:induction false} SweepSparesForeign(hash: Hash, m: Manifest, d: Disk, i: nat, gap: bool,
                                              cp: Option<Checkpoint>, name: string)
    requires i <= |m.entries| && Foreign(m, name)
    ensures SameAt(d.files, Reconcile(hash, m, d, i, gap, cp).0.files, name)
    decreases |m.entries| - i
  {
    hide SettleFile, Obstructed, Discard, Foreign;
    if i == |m.entries| || (m.entries[i].File? && Obstructed(m, i)) {
    } else if m.entries[i].Directory? {
      SweepSparesForeign(hash, m, d, i + 1, gap, cp, name);
    } else if gap {
      JudgingSparesForeign(hash, m, d, i, name);
      SweepSparesForeign(hash, m, Discard(d, m.entries[i].path), i + 1, true, cp, name);
    } else {
      JudgingSparesForeign(hash, m, d, i, name);
      var (d', verdict) := SettleFile(hash, d, m.entries[i]);
      var (gap', cp') := AfterVerdict(m, i, verdict, cp);
      SweepSparesForeign(hash, m, d', i + 1, gap', cp', name);
    }
  }
}
