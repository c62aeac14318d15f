/**
 * Why `AliasOrder.HeldIffOwnersFirst` leaves chains out: with a file that is both
 * named like a part and owner of one, the contents decide and not the order.  In
 * this manifest a file comes before the one whose part it is named like, and yet
 * no run acknowledges it: apps/desktop/src/file_transfer.rs:1163-1282, 1531-1606.
 */
module ChainedParts {
  import opened Wrappers
  import opened TransferCheckpoint
  import opened ReceiveDisk
  import opened ReceiveSession
  import opened TransferProtocol
  import opened AcknowledgedFiles
  import opened AliasOrder

  const PART_OF_PART := "a.part.part"

  /** `a`, the part's part, and the part: the last is longer than the second and does not begin with it. */
  function ChainManifest(hash: Hash): Manifest {
    var second := File(PART_OF_PART, 1, hash([9]));
    Manifest(0, 0, None, [File("a", 1, hash([1])), second, File("a.part", 2, hash([3, 4]))], 4)
  }

  /** No other content has the digest of `content`. */
  ghost predicate OnlyContent(hash: Hash, content: Bytes) {
    forall other :: hash(other) == hash(content) ==> other == content
  }

  lemma ChainShape(hash: Hash)
    ensures var m := ChainManifest(hash);
            && WellFormed(m) && NoReservedName(m) && NoPartDirectory(m) && Aliases(m, 0, 2) && Aliases(m, 2, 1)
            && PartName("a") == "a.part" && PartName("a.part") == PART_OF_PART
            && BytesBefore(m.entries, 0) == 0 && BytesBefore(m.entries, 1) == 1 && BytesBefore(m.entries, 2) == 2
            && FirstFileFrom(m.entries, 0) == Some(0) && FirstFileFrom(m.entries, 1) == Some(1)
            && FirstFileFrom(m.entries, 2) == Some(2)
  {
    var m := ChainManifest(hash);
    assert BytesBefore(m.entries, 1) == 1 && BytesBefore(m.entries, 2) == 2 && BytesBefore(m.entries, 3) == 4;
    assert |RECEIVE_STATE_FILE| == 21;
  }

  /** An open session is before the last file, or at it with the second file where its part would be. */
  ghost predicate Blocked(hash: Hash, store: Store, s: Session) {
    var m := ChainManifest(hash);
    && s.manifest == m && NextFilePosition(m, s.checkpoint).Ok? && NextFilePosition(m, s.checkpoint).value.Some?
    && var p := NextFilePosition(m, s.checkpoint).value.value;
       p.index == 2 ==>
         && s.writer.None? && PART_OF_PART in store.disk.files && s.checkpoint.Some?
         && (if s.checkpoint.value.fileIndex == 2 then p.offset == 1 && store.disk.files[PART_OF_PART] == [9]
             else p.offset == 0)
  }

  // ---------------------------------------------------------------- opening

  lemma VerifiedFirst(hash: Hash, d: Disk)
    requires SettleFile(hash, d, ChainManifest(hash).entries[0]).1.Verified?
    ensures "a.part" !in SettleFile(hash, d, ChainManifest(hash).entries[0]).0.files
  {
    ChainShape(hash);
    OwnNamesApart("a");
  }

  lemma VerifiedSecond(hash: Hash, d: Disk)
    requires OnlyContent(hash, [9]) && "a.part" !in d.files
    requires SettleFile(hash, d, ChainManifest(hash).entries[1]).1.Verified?
    ensures var files := SettleFile(hash, d, ChainManifest(hash).entries[1]).0.files;
            "a.part" !in files && PART_OF_PART in files && files[PART_OF_PART] == [9]
  {
    OwnNamesApart(PART_OF_PART);
    SettleNames(hash, d, ChainManifest(hash).entries[1]);
    assert |PART_OF_PART| == 11 && |"a.part"| == 6;
  }

  lemma PartialThird(hash: Hash, d: Disk)
    requires "a.part" !in d.files && PART_OF_PART in d.files && d.files[PART_OF_PART] == [9]
    ensures SettleFile(hash, d, ChainManifest(hash).entries[2]) == (d, Partial(1))
  {
    ChainShape(hash);
  }

  lemma NoneObstructed(hash: Hash)
    ensures forall i: nat :: i < 3 ==> !Obstructed(ChainManifest(hash), i)
  {
  }

  /** What the sweep counts: never the last file. */
  lemma SweepStopsShort(hash: Hash, d: Disk)
    requires OnlyContent(hash, [9])
    ensures var m := ChainManifest(hash);
            var (d', r) := Reconciled(hash, m, d);
            r.Ok? ==> Blocked(hash, Store(true, d', None), Session(m, r.value, false, None))
  {
    hide Obstructed, SettleFile, NextFilePosition, OnlyContent, CheckpointAfterChunk, WellFormed;
    var m := ChainManifest(hash);
    ChainShape(hash);
    NoneObstructed(hash);
    var (d1, v1) := SettleFile(hash, d, m.entries[0]);
    SettleNames(hash, d, m.entries[0]);
    var (gap1, cp1) := AfterVerdict(m, 0, v1, None);
    assert CheckpointBeforeEntry(m, 0) == None;
    AfterVerdictPlace(m, 0, v1);
    assert Reconciled(hash, m, d) == Reconcile(hash, m, d1, 1, gap1, cp1);
    if gap1 {
      GapKeeps(hash, m, d1, 1, cp1);
    } else {
      VerifiedFirst(hash, d);
      SecondAndThird(hash, d1, cp1);
    }
  }

  lemma {:induction false} GapKeeps(hash: Hash, m: Manifest, d: Disk, i: nat, cp: Option<Checkpoint>)
    requires i <= |m.entries|
    ensures var r := Reconcile(hash, m, d, i, true, cp).1; r.Ok? ==> r.value == cp
    decreases |m.entries| - i
  {
    hide Discard, Obstructed;
    if i < |m.entries| {
      GapKeeps(hash, m, if m.entries[i].Directory? then d else Discard(d, m.entries[i].path), i + 1, cp);
    }
  }

  lemma SecondAndThird(hash: Hash, d: Disk, cp: Option<Checkpoint>)
    requires OnlyContent(hash, [9]) && "a.part" !in d.files && cp == CheckpointBeforeEntry(ChainManifest(hash), 1)
    ensures var m := ChainManifest(hash);
            var (d', r) := Reconcile(hash, m, d, 1, false, cp);
            r.Ok? ==> Blocked(hash, Store(true, d', None), Session(m, r.value, false, None))
  {
    hide Obstructed, SettleFile, NextFilePosition, OnlyContent, WellFormed;
    var m := ChainManifest(hash);
    ChainShape(hash);
    NoneObstructed(hash);
    var (d2, v2) := SettleFile(hash, d, m.entries[1]);
    SettleNames(hash, d, m.entries[1]);
    var (gap2, cp2) := AfterVerdict(m, 1, v2, cp);
    AfterVerdictPlace(m, 1, v2);
    assert Reconcile(hash, m, d, 1, false, cp) == Reconcile(hash, m, d2, 2, gap2, cp2);
    if gap2 {
      GapKeeps(hash, m, d2, 2, cp2);
    } else {
      VerifiedSecond(hash, d);
      PartialThird(hash, d2);
      var cp3 := Some(CheckpointAfterChunk(m, 2, 1));
      assert AfterVerdict(m, 2, Partial(1), cp2) == (true, cp3);
      assert Reconcile(hash, m, d2, 2, false, cp2) == (d2, Ok(cp3));
      assert NextFilePosition(m, cp3) == Ok(Some(Position(2, 1, 3))) by { ThirdStarted(hash); }
    }
  }

  lemma ThirdStarted(hash: Hash)
    ensures var m := ChainManifest(hash);
            NextFilePosition(m, Some(CheckpointAfterChunk(m, 2, 1))) == Ok(Some(Position(2, 1, 3)))
  {
    ChainShape(hash);
  }

  lemma PreparedBlocked(hash: Hash, store: Store)
    requires OnlyContent(hash, [9]) && Prepare(hash, store, ChainManifest(hash)).1.Ok?
    ensures var (store', r) := Prepare(hash, store, ChainManifest(hash)); Blocked(hash, store', r.value)
  {
    hide Reconcile, NextFilePosition, OpenSwept, DirectoryBlocked, ChainManifest;
    var m := ChainManifest(hash);
    SweepStopsShort(hash, store.disk);
    var (d, r) := Reconciled(hash, m, store.disk);
    OpenSweptIs(m, Store(true, d, if store.rootExists then store.record else None),
                if r.Ok? then r.value else None,
                store.rootExists && store.record.Some? && store.record.value.complete);
  }

  // ---------------------------------------------------------------- chunks

  /** At the last file every chunk is refused: its part's name is taken, or what is under it is no beginning of it. */
  lemma ThirdIsRefused(hash: Hash, store: Store, s: Session, chunk: Chunk)
    requires OnlyContent(hash, [3, 4]) && Blocked(hash, store, s) && AdmitChunk(s, chunk).Ok?
    requires AdmitChunk(s, chunk).value.index == 2
    ensures var outcome := StoreChunk(hash, store.disk, s, AdmitChunk(s, chunk).value, chunk).1;
            outcome.Failed? || outcome.QuarantinedMismatch?
  {
    hide AdmitChunk, NextFilePosition;
    ChainShape(hash);
    AdmittedChunk(s, chunk);
    var p := AdmitChunk(s, chunk).value;
    if p.offset == 1 {
      assert store.disk.files[PART_OF_PART][..1] == [9];
      if |chunk.payload| == 1 {
        assert ([9] + chunk.payload)[0] == 9 && [3 as byte, 4][0] == 3;
      }
    }
  }

  lemma TakenBlocked(hash: Hash, store: Store, s: Session, chunk: Chunk)
    requires OnlyContent(hash, [3, 4]) && Blocked(hash, store, s) && TakeChunk(hash, store, s, chunk).2.Ok?
    ensures var (store', s', r) := TakeChunk(hash, store, s, chunk); Blocked(hash, store', s')
  {
    hide AdmitChunk, StoreChunk, TakeChunk, NextFilePosition, OnlyContent, CheckpointBeforeEntry, BytesBefore;
    if AdmitChunk(s, chunk).Err? {
      RefusedUnseen(hash, store, s, chunk);
    } else {
      AdmittedStored(hash, store, s, chunk);
      AdmittedChunk(s, chunk);
      var m, p := ChainManifest(hash), AdmitChunk(s, chunk).value;
      var (d, outcome) := StoreChunk(hash, store.disk, s, p, chunk);
      ChainShape(hash);
      ChunkAdvancesPosition(m, s.checkpoint, chunk.plainLen);
      if p.index == 2 {
        ThirdIsRefused(hash, store, s, chunk);
      } else {
        StoredEnds(hash, store.disk, s, p, chunk);
      }
    }
  }

  /** A chunk is published only when it is the last of its file, under the file's own name. */
  lemma StoredEnds(hash: Hash, d: Disk, s: Session, p: Position, chunk: Chunk)
    requires IsFileAt(s.manifest, p.index)
    ensures var (d', outcome) := StoreChunk(hash, d, s, p, chunk);
            && (outcome.Published? ==> chunk.last && s.manifest.entries[p.index].path in d'.files)
            && (outcome.StillPartial? ==> !chunk.last)
  {
    hide WriterFor, WriteRawChunk;
  }

  // ---------------------------------------------------------------- every run

  ghost predicate RunBlocked(hash: Hash, s: State) {
    && (forall message :: message in s.toReceiver && message.Offer? ==> message.manifest == ChainManifest(hash))
    && (!s.receiver.Listening? ==> Blocked(hash, s.store, s.receiver.session))
  }

  lemma ReceiptBlocked(hash: Hash, s: State, message: Message, policyAllows: bool, permitFree: bool)
    requires OnlyContent(hash, [9]) && OnlyContent(hash, [3, 4]) && RunBlocked(hash, s)
    requires message.Offer? ==> message.manifest == ChainManifest(hash)
    ensures RunBlocked(hash, ReceiverReceives(hash, ChainManifest(hash), s, message, policyAllows, permitFree))
  {
    hide Blocked, Prepare, TakeChunk, Finish, OnlyContent, ChainManifest;
    if s.receiver.Listening? && message.Offer? && Prepare(hash, s.store, message.manifest).1.Ok? {
      PreparedBlocked(hash, s.store);
    } else if s.receiver.Receiving? && message.ChunkMessage? {
      if TakeChunk(hash, s.store, s.receiver.session, message.chunk).2.Ok? {
        TakenBlocked(hash, s.store, s.receiver.session, message.chunk);
      }
    }
  }

  lemma StepBlocked(hash: Hash, s: State, a: Action)
    requires OnlyContent(hash, [9]) && OnlyContent(hash, [3, 4]) && RunBlocked(hash, s)
    ensures RunBlocked(hash, Step(hash, ChainManifest(hash), s, a))
  {
    hide Blocked, OnlyContent, ChainManifest, ReceiverReceives, StreamFile, SenderReceives, MayTearInto, Lost,
         Overtaken;
    var m := ChainManifest(hash);
    match a
    case SenderActs =>
      if s.sender.Streaming? && IsFileAt(m, s.sender.index) {
        StreamingOffersNothing(hash, m, s, s.sender.resume, s.sender.index, s.sender.reader);
      }
      if s.toSender != [] {
        AnsweringOffersNothing(m, s.(toSender := s.toSender[1..]), s.toSender[0]);
      }
    case ReceiverActs(policyAllows, permitFree) =>
      if s.toReceiver != [] {
        assert s.toReceiver[0] in s.toReceiver;
        assert forall other :: other in s.toReceiver[1..] ==> other in s.toReceiver;
        ReceiptBlocked(hash, s.(toReceiver := s.toReceiver[1..]), s.toReceiver[0], policyAllows, permitFree);
      }
    case _ =>
  }

  lemma {:induction false} AllRunsBlocked(hash: Hash, s: State, actions: seq<Action>)
    requires OnlyContent(hash, [9]) && OnlyContent(hash, [3, 4]) && RunBlocked(hash, s)
    ensures RunBlocked(hash, Run(hash, ChainManifest(hash), s, actions))
    decreases |actions|
  {
    hide Step, RunBlocked, OnlyContent, ChainManifest;
    if actions != [] {
      AllRunsBlocked(hash, s, actions[..|actions| - 1]);
      StepBlocked(hash, Run(hash, ChainManifest(hash), s, actions[..|actions| - 1]), actions[|actions| - 1]);
    }
  }

  /** A blocked session is never finished, so nothing is acknowledged. */
  lemma BlockedIsSilent(hash: Hash, s: State, policyAllows: bool, permitFree: bool, cp: Checkpoint)
    requires RunBlocked(hash, s)
    ensures !Acknowledges(hash, ChainManifest(hash), s, policyAllows, permitFree, cp)
  {
    hide ReceiverReceives, NextFilePosition, TerminalCheckpoint, ChainManifest;
    LastSent(s.toSender, Cancel, Ack(cp));
    if s.toReceiver != [] {
      OnlyFinishAcknowledges(hash, ChainManifest(hash), s.(toReceiver := s.toReceiver[1..]), s.toReceiver[0],
                             policyAllows, permitFree, cp);
    }
  }

  /**
   * The second file comes before the third, whose part it is named like, and yet every file is held whenever the
   * receiver acknowledges, since over no run it does.
   */
  lemma ChainIsNeverAcknowledged(hash: Hash)
    requires OnlyContent(hash, [9]) && OnlyContent(hash, [3, 4])
    ensures var m := ChainManifest(hash);
            && WellFormed(m) && NoReservedName(m) && NoPartDirectory(m) && !OwnersFirst(m)
            && HeldWhenAcknowledged(hash, m)
  {
    hide Step, Run, OnlyContent, RunBlocked, Acknowledges, HeldAfter;
    ChainShape(hash);
    var m := ChainManifest(hash);
    forall sources: seq<Option<Bytes>>, actions: seq<Action>, policyAllows: bool, permitFree: bool, cp: Checkpoint
      ensures !Acknowledges(hash, m, Run(hash, m, Start(sources), actions), policyAllows, permitFree, cp)
    {
      assert RunBlocked(hash, Start(sources)) by { StartBlocked(hash, sources); }
      AllRunsBlocked(hash, Start(sources), actions);
      BlockedIsSilent(hash, Run(hash, m, Start(sources), actions), policyAllows, permitFree, cp);
    }
  }

  lemma StartBlocked(hash: Hash, sources: seq<Option<Bytes>>)
    ensures RunBlocked(hash, Start(sources))
  {
  }
}
