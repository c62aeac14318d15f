/**
 * Manifests in which a file is named like another file's part, which path
 * validation admits: what the sweep of apps/desktop/src/file_transfer.rs:1531-1606
 * does to them, and what an acknowledgement means for them.
 */
module PartAliases {
  import opened Wrappers
  import opened TransferCheckpoint
  import opened ReceiveDisk

  // ---------------------------------------------------------------- when every sweep can be trusted

  /** The part the checkpoint points into is not the destination of another file. */
  ghost predicate OpenPartIsOwn(m: Manifest, cp: Option<Checkpoint>) {
    match NextFilePosition(m, cp)
    case Ok(Some(p)) => cp.Some? && cp.value.fileIndex == p.index ==> forall k: nat :: !Aliases(m, p.index, k)
    case _ => true
  }

  /** The sweep succeeds, and what it reports is what it leaves. */
  ghost predicate Trustworthy(hash: Hash, m: Manifest, d: Disk) {
    var (d', r) := Reconciled(hash, m, d);
    r.Ok? && InStep(hash, m, d'.files, r.value) && OpenPartIsOwn(m, r.value)
  }

  /** One content per file that the manifest would accept. */
  ghost predicate ContentsMatch(hash: Hash, m: Manifest, contents: seq<Bytes>) {
    |contents| == |m.entries| && forall i: nat :: IsFileAt(m, i) ==> Matches(hash, m.entries[i], contents[i])
  }

  /** An obstructed file stops every sweep. */
  lemma {:induction false} ObstructedStops(hash: Hash, m: Manifest, d: Disk, i: nat, gap: bool, cp: Option<Checkpoint>,
                                           k: nat)
    requires i <= k && IsFileAt(m, k) && Obstructed(m, k)
    ensures Reconcile(hash, m, d, i, gap, cp).1.Err?
    decreases |m.entries| - i
  {
    hide SettleFile, Discard, Obstructed;
    if m.entries[i].Directory? {
      ObstructedStops(hash, m, d, i + 1, gap, cp, k);
    } else if !Obstructed(m, i) {
      if gap {
        ObstructedStops(hash, m, Discard(d, m.entries[i].path), i + 1, true, cp, k);
      } else {
        var (d', verdict) := SettleFile(hash, d, m.entries[i]);
        var (gap', cp') := AfterVerdict(m, i, verdict, cp);
        ObstructedStops(hash, m, d', i + 1, gap', cp', k);
      }
    }
  }

  /** No later step of the sweep brings back the destination of an earlier file. */
  lemma {:induction false} NeverRevived(hash: Hash, m: Manifest, d: Disk, i: nat, gap: bool, cp: Option<Checkpoint>,
                                        k: nat)
    requires WellFormed(m) && k < i <= |m.entries| && m.entries[k].path !in d.files
    ensures m.entries[k].path !in Reconcile(hash, m, d, i, gap, cp).0.files
    decreases |m.entries| - i
  {
    hide Obstructed, SettleFile, Discard, AfterVerdict, WellFormed;
    if i < |m.entries| && m.entries[i].Directory? {
      NeverRevived(hash, m, d, i + 1, gap, cp, k);
    } else if i < |m.entries| && !Obstructed(m, i) {
      PathsApart(m, i, k);
      JudgingNames(hash, d, m.entries[i], m.entries[k].path);
      if gap {
        NeverRevived(hash, m, Discard(d, m.entries[i].path), i + 1, true, cp, k);
      } else {
        var (d', verdict) := SettleFile(hash, d, m.entries[i]);
        var (gap', cp') := AfterVerdict(m, i, verdict, cp);
        NeverRevived(hash, m, d', i + 1, gap', cp', k);
      }
    }
  }

  lemma PathsApart(m: Manifest, i: nat, k: nat)
    requires WellFormed(m) && i < |m.entries| && k < |m.entries| && i != k
    ensures m.entries[i].path != m.entries[k].path
  {
  }

  lemma {:induction false} GapKeepsCheckpoint(hash: Hash, m: Manifest, d: Disk, i: nat, cp: Option<Checkpoint>)
    requires i <= |m.entries|
    ensures Reconcile(hash, m, d, i, true, cp).1.Ok? ==> Reconcile(hash, m, d, i, true, cp).1 == Ok(cp)
    decreases |m.entries| - i
  {
    hide Discard, Obstructed;
    if i < |m.entries| {
      GapKeepsCheckpoint(hash, m, if m.entries[i].Directory? then d else Discard(d, m.entries[i].path), i + 1, cp);
    }
  }

  /** From a prefix in order, the sweep reports at least that prefix. */
  lemma {:induction false} ClaimsPrefix(hash: Hash, m: Manifest, d: Disk, i: nat)
    requires i <= |m.entries| && Reconcile(hash, m, d, i, false, CheckpointBeforeEntry(m, i)).1.Ok?
    ensures var cp := Reconcile(hash, m, d, i, false, CheckpointBeforeEntry(m, i)).1.value;
            NextFilePosition(m, cp).Ok? && (NextFilePosition(m, cp).value.Some? ==>
                                              i <= NextFilePosition(m, cp).value.value.index)
    decreases |m.entries| - i
  {
    hide SettleFile, Obstructed, NextFilePosition, AfterVerdict, CheckpointBeforeEntry;
    PositionAfterPrefix(m, i);
    if i < |m.entries| {
      if m.entries[i].Directory? {
        assert CheckpointBeforeEntry(m, i + 1) == CheckpointBeforeEntry(m, i) by { SkipsDirectory(m, i); }
        ClaimsPrefix(hash, m, d, i + 1);
      } else {
        var (d', verdict) := SettleFile(hash, d, m.entries[i]);
        PartialIsShort(hash, d, m.entries[i]);
        AfterVerdictPlace(m, i, verdict);
        var (gap, cp) := AfterVerdict(m, i, verdict, CheckpointBeforeEntry(m, i));
        if gap {
          GapKeepsCheckpoint(hash, m, d', i + 1, cp);
        } else {
          ClaimsPrefix(hash, m, d', i + 1);
        }
      }
    }
  }

  lemma SkipsDirectory(m: Manifest, i: nat)
    requires i < |m.entries| && m.entries[i].Directory?
    ensures CheckpointBeforeEntry(m, i + 1) == CheckpointBeforeEntry(m, i)
  {
  }

  lemma PartialIsShort(hash: Hash, d: Disk, e: Entry)
    requires e.File?
    ensures var verdict := SettleFile(hash, d, e).1; verdict.Partial? ==> verdict.length < e.size
  {
  }

  // ---------------------------------------------------------------- a disk that shows each alias up

  /** The destinations of the files below `n`, each with its content. */
  function Finals(m: Manifest, contents: seq<Bytes>, n: nat): map<string, Bytes>
    requires n <= |m.entries| == |contents|
  {
    if n == 0 then map[]
    else if m.entries[n - 1].Directory? then Finals(m, contents, n - 1)
    else Finals(m, contents, n - 1)[m.entries[n - 1].path := contents[n - 1]]
  }

  lemma {:induction false} FinalsAre(m: Manifest, contents: seq<Bytes>, n: nat, name: string)
    requires WellFormed(m) && n <= |m.entries| == |contents|
    ensures name in Finals(m, contents, n) ==> exists k: nat :: k < n && IsFileAt(m, k) && m.entries[k].path == name
    ensures forall k: nat :: k < n && IsFileAt(m, k) && m.entries[k].path == name ==>
              name in Finals(m, contents, n) && Finals(m, contents, n)[name] == contents[k]
    decreases n
  {
    if n > 0 {
      FinalsAre(m, contents, n - 1, name);
      assert forall k: nat :: k < n - 1 ==> m.entries[k].path != m.entries[n - 1].path;
    }
  }

  lemma UnaliasedPartAbsent(m: Manifest, contents: seq<Bytes>, n: nat, k: nat)
    requires WellFormed(m) && n <= |m.entries| == |contents| && IsFileAt(m, k) && forall t: nat ::
               t < n ==> !Aliases(m, k, t)
    ensures PartName(m.entries[k].path) !in Finals(m, contents, n)
  {
    FinalsAre(m, contents, n, PartName(m.entries[k].path));
    if t: nat :| t < n && IsFileAt(m, t) && m.entries[t].path == PartName(m.entries[k].path) {
      assert false by { assert Aliases(m, k, t); }
    }
  }

  ghost predicate NoAliasBelow(m: Manifest, n: nat) {
    forall o: nat, t: nat :: o < n && t < n ==> !Aliases(m, o, t)
  }

  /** The first alias pair: nothing before its later member is aliased. */
  lemma {:induction false} FirstAlias(m: Manifest, o: nat, t: nat) returns (owner: nat, target: nat)
    requires Aliases(m, o, t)
    ensures Aliases(m, owner, target) && NoAliasBelow(m, if owner < target then target else owner)
    decreases if o < t then t else o
  {
    var n := if o < t then t else o;
    if o': nat, t': nat :| o' < n && t' < n && Aliases(m, o', t') {
      owner, target := FirstAlias(m, o', t');
    } else {
      owner, target := o, t;
    }
  }

  /** With only own destinations below `n` live, the sweep reaches `n` with nothing touched. */
  lemma ReachesAlias(hash: Hash, m: Manifest, contents: seq<Bytes>, d: Disk, n: nat)
    requires WellFormed(m) && ContentsMatch(hash, m, contents) && n <= |m.entries|
    requires forall l: nat :: IsFileAt(m, l) ==> !Obstructed(m, l)
    requires forall k: nat :: k < n && IsFileAt(m, k) ==>
               FinalAt(m, d.files, k) == Some(contents[k]) && PartName(m.entries[k].path) !in d.files
    ensures Reconciled(hash, m, d) == Reconcile(hash, m, d, n, false, CheckpointBeforeEntry(m, n))
  {
    hide Obstructed;
    forall k | 0 <= k < n && IsFileAt(m, k) ensures CleanlyPublished(hash, m, d.files, k) {
      assert FinalAt(m, d.files, k) == Some(contents[k]);
    }
    SweepPassesStage(hash, m, d, 0, n, false, CheckpointBeforeEntry(m, n));
  }

  /**
   * A sweep that counts file `n` as published although an earlier file's destination is gone, or its part is in the
   * way, cannot be trusted.
   */
  lemma PastIsUntrue(hash: Hash, m: Manifest, d: Disk, n: nat, k: nat)
    requires WellFormed(m) && k < n <= |m.entries| && IsFileAt(m, k) && m.entries[k].path !in d.files
    requires Reconcile(hash, m, d, n, false, CheckpointBeforeEntry(m, n)).1.Ok?
    ensures var (d', r) := Reconcile(hash, m, d, n, false, CheckpointBeforeEntry(m, n));
              !InStep(hash, m, d'.files, r.value)
  {
    hide Reconcile, CheckpointBeforeEntry, Matches, OpenAt;
    NeverRevived(hash, m, d, n, false, CheckpointBeforeEntry(m, n), k);
    ClaimsPrefix(hash, m, d, n);
    var d' := Reconcile(hash, m, d, n, false, CheckpointBeforeEntry(m, n)).0;
    assert !CleanlyPublished(hash, m, d'.files, k);
  }

  lemma GapIsUntrue(hash: Hash, m: Manifest, d: Disk, n: nat, k: nat)
    requires WellFormed(m) && k < n < |m.entries| && IsFileAt(m, n) && IsFileAt(m, k) && m.entries[k].path !in d.files
    requires Reconcile(hash, m, d, n + 1, true, CheckpointBeforeEntry(m, n)).1.Ok?
    ensures var (d', r) := Reconcile(hash, m, d, n + 1, true, CheckpointBeforeEntry(m, n));
              !InStep(hash, m, d'.files, r.value)
  {
    hide Reconcile, CheckpointBeforeEntry, Matches, OpenAt;
    var cp := CheckpointBeforeEntry(m, n);
    NeverRevived(hash, m, d, n + 1, true, cp, k);
    GapKeepsCheckpoint(hash, m, d, n + 1, cp);
    RollbackRestartsFile(m, n);
    var d' := Reconcile(hash, m, d, n + 1, true, cp).0;
    assert !CleanlyPublished(hash, m, d'.files, k);
  }

  /** The later file of the pair is the target of an earlier owner, and no file stands at its own part. */
  lemma TargetLast(hash: Hash, m: Manifest, contents: seq<Bytes>, owner: nat, n: nat) returns (d: Disk)
    requires WellFormed(m) && ContentsMatch(hash, m, contents) && NoAliasBelow(m, n) && Aliases(m, owner, n)
             && owner < n
    requires forall l: nat :: IsFileAt(m, l) ==> !Obstructed(m, l)
    requires forall u: nat :: u < n ==> !Aliases(m, n, u)
    ensures !Trustworthy(hash, m, d)
  {
    hide Obstructed, InStep, Reconciled, Reconcile, SettleFile, WellFormed, NoAliasBelow, CheckpointBeforeEntry, Finals;
    var e := m.entries[n];
    d := Disk(Finals(m, contents, n)[PartName(e.path) := contents[n]], multiset{});
    TargetDisk(m, contents, n);
    ReachesAlias(hash, m, contents, d, n);
    PartPublished(hash, m, contents, d, n);
    var published := Publish(d, e.path);
    SweepCounts(hash, m, d, n, published);
    if Trustworthy(hash, m, d) {
      ClaimsPrefix(hash, m, published, n + 1);
      BothClaimed(hash, m, Reconciled(hash, m, d).0.files, Reconciled(hash, m, d).1.value, owner, n);
    }
  }

  /** Every file below `n` in place, the content of file `n` under its part name: nothing below `n` is disturbed. */
  lemma TargetDisk(m: Manifest, contents: seq<Bytes>, n: nat)
    requires WellFormed(m) && |contents| == |m.entries| && NoAliasBelow(m, n) && IsFileAt(m, n) && forall u: nat ::
               u < n ==> !Aliases(m, n, u)
    ensures var files := Finals(m, contents, n)[PartName(m.entries[n].path) := contents[n]];
            && m.entries[n].path !in files
            && forall k: nat :: k < n && IsFileAt(m, k) ==>
                 FinalAt(m, files, k) == Some(contents[k]) && PartName(m.entries[k].path) !in files
  {
    hide WellFormed, Finals, NoAliasBelow;
    var path := m.entries[n].path;
    var files := Finals(m, contents, n)[PartName(path) := contents[n]];
    forall k: nat | k < n && IsFileAt(m, k)
      ensures FinalAt(m, files, k) == Some(contents[k]) && PartName(m.entries[k].path) !in files
    {
      FinalsAre(m, contents, n, m.entries[k].path);
      NoneAliased(m, n, k);
      UnaliasedPartAbsent(m, contents, n, k);
      PartNameInjective(m.entries[k].path, path);
      PathsApart(m, k, n);
      assert !Aliases(m, n, k);
    }
    PartNameInjective(path, path);
    FinalsAre(m, contents, n, path);
    assert path !in Finals(m, contents, n) by {
      forall k: nat | k < n ensures m.entries[k].path != path {
        PathsApart(m, k, n);
      }
    }
  }

  lemma NoneAliased(m: Manifest, n: nat, k: nat)
    requires NoAliasBelow(m, n) && k < n
    ensures forall t: nat :: t < n ==> !Aliases(m, k, t)
  {
  }

  lemma PartPublished(hash: Hash, m: Manifest, contents: seq<Bytes>, d: Disk, n: nat)
    requires ContentsMatch(hash, m, contents) && IsFileAt(m, n)
    requires m.entries[n].path !in d.files && PartName(m.entries[n].path) in d.files
             && d.files[PartName(m.entries[n].path)] == contents[n]
    ensures SettleFile(hash, d, m.entries[n]) == (Publish(d, m.entries[n].path), Verified)
  {
  }

  /** A verified file is counted and the sweep goes on. */
  lemma SweepCounts(hash: Hash, m: Manifest, d: Disk, n: nat, d': Disk)
    requires IsFileAt(m, n) && !Obstructed(m, n) && SettleFile(hash, d, m.entries[n]) == (d', Verified)
    ensures Reconcile(hash, m, d, n, false, CheckpointBeforeEntry(m, n))
            == Reconcile(hash, m, d', n + 1, false, CheckpointBeforeEntry(m, n + 1))
  {
    hide Obstructed, SettleFile;
    LastFileIs(m.entries, n + 1, n);
  }

  /** Owner and target cannot both be cleanly published. */
  lemma BothClaimed(hash: Hash, m: Manifest, files: map<string, Bytes>, cp: Option<Checkpoint>, owner: nat, target: nat)
    requires Aliases(m, owner, target) && NextFilePosition(m, cp).Ok?
    requires NextFilePosition(m, cp).value.Some? ==>
               owner < NextFilePosition(m, cp).value.value.index && target < NextFilePosition(m, cp).value.value.index
    ensures !InStep(hash, m, files, cp)
  {
    assert !CleanlyPublished(hash, m, files, owner) || !CleanlyPublished(hash, m, files, target);
  }

  lemma PartNameInjective(a: string, b: string)
    ensures PartName(a) == PartName(b) <==> a == b
    ensures PartName(a) != a
  {
    assert |PartName(a)| == |a| + 5 && |PartName(b)| == |b| + 5;
    assert a == PartName(a)[..|a|] && b == PartName(b)[..|b|];
  }

  /**
   * The later file of the pair is an owner whose part is an earlier destination, and is itself no target of an
   * earlier file.
   */
  lemma OwnerLast(hash: Hash, m: Manifest, contents: seq<Bytes>, n: nat, target: nat) returns (d: Disk)
    requires WellFormed(m) && ContentsMatch(hash, m, contents) && NoAliasBelow(m, n) && Aliases(m, n, target)
             && target < n
    requires forall l: nat :: IsFileAt(m, l) ==> !Obstructed(m, l)
    requires forall o: nat :: o < n ==> !Aliases(m, o, n)
    ensures !Trustworthy(hash, m, d)
  {
    hide Obstructed, InStep, Reconciled, Reconcile, CheckpointBeforeEntry;
    var e := m.entries[n];
    d := Disk(Finals(m, contents, n + 1), multiset{});
    OwnerDisk(m, contents, n);
    ReachesAlias(hash, m, contents, d, n);
    FinalsAre(m, contents, n + 1, e.path);
    PartNameInjective(e.path, e.path);
    var kept := Quarantine(d, PartName(e.path));
    assert SettleFile(hash, d, e) == (kept, Verified);
    SweepCounts(hash, m, d, n, kept);
    if Reconciled(hash, m, d).1.Ok? {
      PastIsUntrue(hash, m, kept, n + 1, target);
    }
  }

  lemma OwnerDisk(m: Manifest, contents: seq<Bytes>, n: nat)
    requires WellFormed(m) && |contents| == |m.entries| && NoAliasBelow(m, n) && IsFileAt(m, n) && forall o: nat ::
               o < n ==> !Aliases(m, o, n)
    ensures var files := Finals(m, contents, n + 1);
            forall k: nat :: k < n && IsFileAt(m, k) ==>
              FinalAt(m, files, k) == Some(contents[k]) && PartName(m.entries[k].path) !in files
  {
    hide WellFormed, Finals, NoAliasBelow;
    forall k: nat | k < n && IsFileAt(m, k)
      ensures FinalAt(m, Finals(m, contents, n + 1), k) == Some(contents[k])
              && PartName(m.entries[k].path) !in Finals(m, contents, n + 1)
    {
      FinalsAre(m, contents, n + 1, m.entries[k].path);
      NoneAliased(m, n, k);
      UnaliasedPartAbsent(m, contents, n + 1, k);
    }
  }

  /** The later file is a target whose own part is an earlier destination. */
  lemma TargetBetween(hash: Hash, m: Manifest, contents: seq<Bytes>, n: nat, u: nat) returns (d: Disk)
    requires WellFormed(m) && ContentsMatch(hash, m, contents) && NoAliasBelow(m, n) && Aliases(m, n, u) && u < n
    requires forall l: nat :: IsFileAt(m, l) ==> !Obstructed(m, l)
    ensures !Trustworthy(hash, m, d)
  {
    hide Obstructed, InStep;
    var e := m.entries[n];
    d := Disk(Finals(m, contents, n), multiset{});
    forall k: nat | k < n && IsFileAt(m, k)
      ensures FinalAt(m, d.files, k) == Some(contents[k]) && PartName(m.entries[k].path) !in d.files
    {
      FinalsAre(m, contents, n, m.entries[k].path);
      UnaliasedPartAbsent(m, contents, n, k);
    }
    ReachesAlias(hash, m, contents, d, n);
    FinalsAre(m, contents, n, e.path);
    FinalsAre(m, contents, n, PartName(e.path));
    BetweenIsUntrue(hash, m, d, n, u);
  }

  /** Judging a part whose destination is free uses the part up, unless it is too short. */
  lemma PartUsedUp(hash: Hash, d: Disk, e: Entry)
    requires e.File? && e.path !in d.files && PartName(e.path) in d.files
    ensures var (d', verdict) := SettleFile(hash, d, e);
            if verdict.Partial? then verdict.length < e.size else PartName(e.path) !in d'.files
  {
    PartNameInjective(e.path, e.path);
  }

  lemma BetweenIsUntrue(hash: Hash, m: Manifest, d: Disk, n: nat, u: nat)
    requires WellFormed(m) && Aliases(m, n, u) && u < n && !Obstructed(m, n)
    requires m.entries[n].path !in d.files && PartName(m.entries[n].path) in d.files
    requires Reconciled(hash, m, d) == Reconcile(hash, m, d, n, false, CheckpointBeforeEntry(m, n))
    ensures !Trustworthy(hash, m, d)
  {
    hide Obstructed, InStep, SettleFile, Reconciled, Reconcile, WellFormed, NextFilePosition, CheckpointBeforeEntry,
         CheckpointAfterChunk;
    var e := m.entries[n];
    PartUsedUp(hash, d, e);
    var (d', verdict) := SettleFile(hash, d, e);
    if Trustworthy(hash, m, d) {
      match verdict
      case Verified =>
        SweepCounts(hash, m, d, n, d');
        PastIsUntrue(hash, m, d', n + 1, u);
      case Broken =>
        SweepGaps(hash, m, d, n);
        GapIsUntrue(hash, m, d', n, u);
      case Partial(length) =>
        SweepGaps(hash, m, d, n);
        GapKeepsCheckpoint(hash, m, d', n + 1, Some(CheckpointAfterChunk(m, n, length)));
        PartIsNotOwn(m, n, u, length);
    }
  }

  /** A short or broken file leaves a gap. */
  lemma SweepGaps(hash: Hash, m: Manifest, d: Disk, n: nat)
    requires IsFileAt(m, n) && !Obstructed(m, n) && !SettleFile(hash, d, m.entries[n]).1.Verified?
    ensures var (d', verdict) := SettleFile(hash, d, m.entries[n]);
            Reconcile(hash, m, d, n, false, CheckpointBeforeEntry(m, n)) ==
            Reconcile(hash, m, d', n + 1, true, if verdict.Partial?
                then Some(CheckpointAfterChunk(m, n, verdict.length)) else CheckpointBeforeEntry(m, n))
  {
    hide Obstructed, SettleFile, CheckpointBeforeEntry, CheckpointAfterChunk;
  }

  lemma PartIsNotOwn(m: Manifest, n: nat, u: nat, length: nat)
    requires Aliases(m, n, u) && length < m.entries[n].size
    ensures !OpenPartIsOwn(m, Some(CheckpointAfterChunk(m, n, length)))
  {
    hide NextFilePosition, CheckpointBeforeEntry;
    AfterVerdictPlace(m, n, Partial(length));
  }

  /**
   * Every sweep, from every disk, can be trusted exactly when no file and no directory is named like
   * a file's part, given that the manifest has a content at all.
   */
  lemma SweepTrustworthyIff(hash: Hash, m: Manifest, contents: seq<Bytes>)
    requires WellFormed(m) && NoReservedName(m) && ContentsMatch(hash, m, contents)
    ensures (forall d: Disk :: Trustworthy(hash, m, d)) <==> NoPartAlias(m) && NoPartDirectory(m)
  {
    ObstructedIff(m);
    if !NoPartDirectory(m) {
      var k: nat :| IsFileAt(m, k) && Obstructed(m, k);
      ObstructedStops(hash, m, Disk(map[], multiset{}), 0, false, None, k);
      assert !Trustworthy(hash, m, Disk(map[], multiset{}));
    } else if NoPartAlias(m) {
      forall d: Disk ensures Trustworthy(hash, m, d) {
        ReconcileEndsInStep(hash, m, d);
      }
    } else {
      var d := AliasIsUntrue(hash, m, contents);
    }
  }

  lemma AliasIsUntrue(hash: Hash, m: Manifest, contents: seq<Bytes>) returns (d: Disk)
    requires WellFormed(m) && ContentsMatch(hash, m, contents) && !NoPartAlias(m)
    requires forall l: nat :: IsFileAt(m, l) ==> !Obstructed(m, l)
    ensures !Trustworthy(hash, m, d)
  {
    hide Trustworthy, Obstructed, ContentsMatch;
    var o: nat, t: nat :| Aliases(m, o, t);
    PartNameInjective(m.entries[o].path, m.entries[o].path);
    var owner, target := FirstAlias(m, o, t);
    var n := if owner < target then target else owner;
    if u: nat :| u < n && Aliases(m, n, u) {
      if x: nat :| x < n && Aliases(m, x, n) {
        d := TargetBetween(hash, m, contents, n, u);
      } else {
        d := OwnerLast(hash, m, contents, n, u);
      }
    } else {
      OwnAliasImpossible(m, n);
      d := TargetLast(hash, m, contents, owner, n);
    }
  }

  lemma OwnAliasImpossible(m: Manifest, n: nat)
    ensures !Aliases(m, n, n)
  {
    if IsFileAt(m, n) {
      PartNameInjective(m.entries[n].path, m.entries[n].path);
    }
  }
}
