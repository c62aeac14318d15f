/**
 * What the receiver holds when it acknowledges a transfer, for manifests in which
 * a file may be named like an earlier file's part: apps/desktop/src/file_transfer.rs:1051-1355.
 *
 * Here a file counts as held when its destination has the declared content,
 * whatever else is live beside it.
 */
module AcknowledgedFiles {
  import opened Wrappers
  import opened TransferCheckpoint
  import opened ReceiveDisk
  import opened ReceiveSession
  import opened TransferProtocol

  /** A file that is named like another file's part comes after that file. */
  ghost predicate OwnersFirst(m: Manifest) {
    forall o: nat, t: nat :: Aliases(m, o, t) ==> o < t
  }

  ghost predicate Held(hash: Hash, m: Manifest, files: map<string, Bytes>, i: nat)
    requires i < |m.entries|
  {
    FinalAt(m, files, i).Some? && Matches(hash, m.entries[i], FinalAt(m, files, i).value)
  }

  ghost predicate HeldBefore(hash: Hash, m: Manifest, files: map<string, Bytes>, k: nat) {
    forall i: nat :: i < k && IsFileAt(m, i) ==> Held(hash, m, files, i)
  }

  /** The entries a checkpoint counts as received. */
  function Claimed(m: Manifest, cp: Option<Checkpoint>): nat {
    match NextFilePosition(m, cp)
    case Ok(Some(p)) => p.index
    case _ => |m.entries|
  }

  /** Working on a later file's own two names leaves the destinations of earlier files alone. */
  lemma LaterFileKeepsHeld(hash: Hash, m: Manifest, before: map<string, Bytes>, after: map<string, Bytes>, i: nat,
                           k: nat)
    requires WellFormed(m) && OwnersFirst(m) && IsFileAt(m, i) && k <= i && OnlyNames(before, after, m.entries[i].path)
    requires HeldBefore(hash, m, before, k)
    ensures HeldBefore(hash, m, after, k)
  {
    forall j: nat | j < k && IsFileAt(m, j) ensures Held(hash, m, after, j) {
      assert Held(hash, m, before, j);
      assert !Aliases(m, i, j);
      assert m.entries[j].path != m.entries[i].path;
    }
  }

  // ---------------------------------------------------------------- the sweep

  /** What the sweep counts as received is held when it ends. */
  lemma {:induction false} SweepHolds(hash: Hash, m: Manifest, d: Disk, i: nat, gap: bool, cp: Option<Checkpoint>)
    requires WellFormed(m) && OwnersFirst(m) && i <= |m.entries|
    requires if gap then NextFilePosition(m, cp).Ok? && NextFilePosition(m, cp).value.Some? && Claimed(m, cp) < i
             && HeldBefore(hash, m, d.files, Claimed(m, cp))
             else cp == CheckpointBeforeEntry(m, i) && HeldBefore(hash, m, d.files, i)
    ensures var (d', r) := Reconcile(hash, m, d, i, gap, cp);
            r.Ok? ==> NextFilePosition(m, r.value).Ok? && HeldBefore(hash, m, d'.files, Claimed(m, r.value))
    decreases |m.entries| - i
  {
    hide SettleFile, Discard, Obstructed, Held, WellFormed;
    PositionAfterPrefix(m, i);
    if i == |m.entries| || (m.entries[i].File? && Obstructed(m, i)) {
    } else if m.entries[i].Directory? {
      SweepHolds(hash, m, d, i + 1, gap, cp);
    } else if gap {
      DiscardNames(d, m.entries[i].path);
      LaterFileKeepsHeld(hash, m, d.files, Discard(d, m.entries[i].path).files, i, Claimed(m, cp));
      SweepHolds(hash, m, Discard(d, m.entries[i].path), i + 1, true, cp);
    } else {
      SettleNames(hash, d, m.entries[i]);
      var (d', verdict) := SettleFile(hash, d, m.entries[i]);
      LaterFileKeepsHeld(hash, m, d.files, d'.files, i, i);
      var (gap', cp') := AfterVerdict(m, i, verdict, cp);
      AfterVerdictPlace(m, i, verdict);
      if verdict.Verified? {
        HeldOneMore(hash, m, d'.files, i);
      }
      SweepHolds(hash, m, d', i + 1, gap', cp');
    }
  }

  lemma DiscardNames(d: Disk, path: string)
    ensures OnlyNames(d.files, Discard(d, path).files, path)
  {
  }

  lemma HeldOneMore(hash: Hash, m: Manifest, files: map<string, Bytes>, i: nat)
    requires IsFileAt(m, i) && HeldBefore(hash, m, files, i)
    requires m.entries[i].path in files && Matches(hash, m.entries[i], files[m.entries[i].path])
    ensures HeldBefore(hash, m, files, i + 1)
  {
  }

  // ---------------------------------------------------------------- an open session

  /** Everything the checkpoint counts is held, and an open writer is exactly its part on disk. */
  ghost predicate SessionHolds(hash: Hash, m: Manifest, store: Store, s: Session) {
    && s.manifest == m && NextFilePosition(m, s.checkpoint).Ok?
    && HeldBefore(hash, m, store.disk.files, Claimed(m, s.checkpoint))
    && (s.writer.Some? ==>
          && NextFilePosition(m, s.checkpoint).value.Some?
          && var p := NextFilePosition(m, s.checkpoint).value.value;
             IsFileAt(m, p.index) && Tracks(store.disk, m.entries[p.index], p.index, s.writer.value)
             && |s.writer.value.absorbed| == p.offset)
  }

  lemma WriterTracksItsPart(hash: Hash, m: Manifest, store: Store, s: Session, p: Position)
    requires SessionHolds(hash, m, store, s) && NextFilePosition(m, s.checkpoint) == Ok(Some(p))
    ensures IsFileAt(m, p.index)
    ensures WriterFor(store.disk, s, p).Ok? ==>
              var (d, w) := WriterFor(store.disk, s, p).value;
              Tracks(d, m.entries[p.index], p.index, w) && |w.absorbed| == p.offset
              && OnlyNames(store.disk.files, d.files, m.entries[p.index].path)
  {
    hide HeldBefore;
    NextPositionIsInFile(m, s.checkpoint);
    OwnNamesApart(m.entries[p.index].path);
  }

  /** What storing an admitted chunk leaves, when it does not fail. */
  lemma StoredChunkHolds(hash: Hash, m: Manifest, store: Store, s: Session, chunk: Chunk)
    requires SessionHolds(hash, m, store, s) && AdmitChunk(s, chunk).Ok?
    ensures var p := AdmitChunk(s, chunk).value;
            && NextFilePosition(m, s.checkpoint) == Ok(Some(p)) && IsFileAt(m, p.index)
            && var (d, outcome) := StoreChunk(hash, store.disk, s, p, chunk);
               var e := m.entries[p.index];
               && OnlyNames(store.disk.files, d.files, e.path)
               && (outcome.StillPartial? ==>
                     !chunk.last && Tracks(d, e, p.index, outcome.writer)
                     && |outcome.writer.absorbed| == p.offset + chunk.plainLen)
               && (outcome.Published? ==> chunk.last && e.path in d.files && Matches(hash, e, d.files[e.path]))
  {
    hide WriterFor, AppendChunk, HeldBefore, NextFilePosition, AdmitChunk, SessionHolds, OnlyNames, Tracks, StoredAs;
    AdmittedChunk(s, chunk);
    var p := AdmitChunk(s, chunk).value;
    assert s.manifest == m by { ManifestHeld(hash, m, store, s); }
    var e := m.entries[p.index];
    WriterTracksItsPart(hash, m, store, s, p);
    var (d, outcome) := StoreChunk(hash, store.disk, s, p, chunk);
    if WriterFor(store.disk, s, p).Ok? {
      var (d1, w) := WriterFor(store.disk, s, p).value;
      TracksLength(d1, e, p.index, w);
      AppendOutcome(hash, m, s, d1, p, w, chunk);
      OnlyNamesCompose(store.disk.files, d1.files, d.files, e.path);
      StoredAsTracks(hash, m, s, p, chunk, w.absorbed + chunk.payload, d1, d, outcome);
    } else {
      NothingRenamed(store.disk.files, e.path);
    }
  }

  lemma ManifestHeld(hash: Hash, m: Manifest, store: Store, s: Session)
    requires SessionHolds(hash, m, store, s)
    ensures s.manifest == m
  {
  }

  lemma NothingRenamed(files: map<string, Bytes>, path: string)
    ensures OnlyNames(files, files, path)
  {
  }

  lemma TracksLength(d: Disk, e: Entry, index: nat, w: PartWriter)
    requires Tracks(d, e, index, w)
    ensures w.offset == |w.absorbed|
  {
  }

  lemma StoredAsTracks(hash: Hash, m: Manifest, s: Session, p: Position, chunk: Chunk, content: Bytes, before: Disk,
                       after: Disk, outcome: Outcome)
    requires IsFileAt(m, p.index) && s.manifest == m && StoredAs(hash, m, s, p, chunk, content, before, after, outcome)
    requires chunk.last ==> |content| == m.entries[p.index].size
    ensures var e := m.entries[p.index];
            && (outcome.StillPartial? ==>
                  !chunk.last && Tracks(after, e, p.index, outcome.writer) && |outcome.writer.absorbed| == |content|)
            && (outcome.Published? ==> chunk.last && e.path in after.files && Matches(hash, e, after.files[e.path]))
  {
  }

  lemma TakenChunkHolds(hash: Hash, m: Manifest, store: Store, s: Session, chunk: Chunk)
    requires WellFormed(m) && OwnersFirst(m) && SessionHolds(hash, m, store, s)
             && TakeChunk(hash, store, s, chunk).2.Ok?
    ensures SessionHolds(hash, m, TakeChunk(hash, store, s, chunk).0, TakeChunk(hash, store, s, chunk).1)
  {
    hide StoreChunk, HeldBefore, WellFormed, OwnersFirst, Tracks, NextFilePosition, AdmitChunk, OnlyNames, Matches;
    AcknowledgedCheckpoint(hash, store, s, chunk);
    StoredChunkHolds(hash, m, store, s, chunk);
    var p := AdmitChunk(s, chunk).value;
    var (d, outcome) := StoreChunk(hash, store.disk, s, p, chunk);
    LaterFileKeepsHeld(hash, m, store.disk.files, d.files, p.index, p.index);
    ChunkAdvancesPosition(m, s.checkpoint, chunk.plainLen);
    AdmittedChunk(s, chunk);
    hide CheckpointAfterChunk;
    if outcome.Published? {
      HeldOneMore(hash, m, d.files, p.index);
      HeldToNextFile(hash, m, d.files, p.index + 1);
    }
  }

  /** Directories hold nothing, so held up to an entry is held up to the next file. */
  lemma HeldToNextFile(hash: Hash, m: Manifest, files: map<string, Bytes>, i: nat)
    requires HeldBefore(hash, m, files, i) && i <= |m.entries|
    ensures HeldBefore(hash, m, files, if StartOfFileFrom(m, i).Some? then StartOfFileFrom(m, i).value.index
            else |m.entries|)
  {
    hide Held;
  }

  /** Whatever was on disk, a session opens holding what its checkpoint counts. */
  lemma PreparedHolds(hash: Hash, store: Store, m: Manifest)
    requires WellFormed(m) && OwnersFirst(m) && Prepare(hash, store, m).1.Ok?
    ensures SessionHolds(hash, m, Prepare(hash, store, m).0, Prepare(hash, store, m).1.value)
  {
    hide Reconcile, HeldBefore, WellFormed, OwnersFirst, NextFilePosition, DirectoryBlocked, OpenSwept;
    var r := Reconciled(hash, m, store.disk).1;
    SweepHolds(hash, m, store.disk, 0, false, None) by { NothingHeldYet(hash, m, store.disk.files); }
    OpenSweptIs(m, Store(true, Reconciled(hash, m, store.disk).0, if store.rootExists then store.record else None),
                if r.Ok? then r.value else None, store.rootExists && store.record.Some? && store.record.value.complete);
  }

  lemma NothingHeldYet(hash: Hash, m: Manifest, files: map<string, Bytes>)
    ensures HeldBefore(hash, m, files, 0) && CheckpointBeforeEntry(m, 0) == None
  {
  }

  lemma OpenSweptIs(m: Manifest, swept: Store, cp: Option<Checkpoint>, wasComplete: bool)
    ensures var (store, r) := OpenSwept(m, swept, cp, wasComplete);
            r.Ok? ==> r.value.manifest == m && r.value.checkpoint == cp && r.value.writer.None?
  {
    hide NextFilePosition, FirstFileFrom, TerminalCheckpoint, ValidCheckpoint;
  }

  // ---------------------------------------------------------------- every run

  ghost predicate RunHolds(hash: Hash, m: Manifest, s: State) {
    && (forall message :: message in s.toReceiver && message.Offer? ==> message.manifest == m)
    && (!s.receiver.Listening? ==> SessionHolds(hash, m, s.store, s.receiver.session))
  }

  lemma SenderKeepsHolding(hash: Hash, m: Manifest, s: State)
    requires RunHolds(hash, m, s)
    ensures RunHolds(hash, m, SenderStep(hash, m, s))
  {
    hide SessionHolds, StreamFile, SenderReceives;
    var t := SenderStep(hash, m, s);
    if s.sender.Streaming? && IsFileAt(m, s.sender.index) {
      StreamingOffersNothing(hash, m, s, s.sender.resume, s.sender.index, s.sender.reader);
    }
    if s.toSender != [] {
      AnsweringOffersNothing(m, s.(toSender := s.toSender[1..]), s.toSender[0]);
    }
  }

  /** The receiver is as it was, and no offer of another manifest is on its way. */
  ghost predicate LeavesReceiver(m: Manifest, s: State, t: State) {
    && t.store == s.store && t.receiver == s.receiver
    && forall message :: message in t.toReceiver && message.Offer? ==> message in s.toReceiver
  }

  lemma StreamingOffersNothing(hash: Hash, m: Manifest, s: State, resume: Option<Checkpoint>, index: nat,
                               reader: Option<Reader>)
    requires IsFileAt(m, index)
    ensures LeavesReceiver(m, s, StreamFile(hash, m, s, resume, index, reader))
  {
    hide OpenReader, NextChunk, CheckpointAfterChunk;
  }

  lemma AnsweringOffersNothing(m: Manifest, s: State, message: Message)
    ensures LeavesReceiver(m, s, SenderReceives(m, s, message))
  {
    hide ValidCheckpoint, TerminalCheckpoint;
  }

  lemma ReceiptKeepsHolding(hash: Hash, m: Manifest, s: State, message: Message, policyAllows: bool, permitFree: bool)
    requires WellFormed(m) && OwnersFirst(m) && RunHolds(hash, m, s) && (message.Offer? ==> message.manifest == m)
    ensures RunHolds(hash, m, ReceiverReceives(hash, m, s, message, policyAllows, permitFree))
  {
    hide SessionHolds, Prepare, TakeChunk, Finish, WellFormed, OwnersFirst;
    if s.receiver.Listening? && message.Offer? && Prepare(hash, s.store, m).1.Ok? {
      PreparedHolds(hash, s.store, m);
    } else if s.receiver.Receiving? && message.ChunkMessage?
      && TakeChunk(hash, s.store, s.receiver.session, message.chunk).2.Ok? {
      TakenChunkHolds(hash, m, s.store, s.receiver.session, message.chunk);
    }
  }

  lemma ReceiverKeepsHolding(hash: Hash, m: Manifest, s: State, policyAllows: bool, permitFree: bool)
    requires WellFormed(m) && OwnersFirst(m) && RunHolds(hash, m, s)
    ensures RunHolds(hash, m, ReceiverStep(hash, m, s, policyAllows, permitFree))
  {
    hide SessionHolds, WellFormed, OwnersFirst, ReceiverReceives;
    if s.toReceiver != [] {
      assert s.toReceiver[0] in s.toReceiver;
      assert forall other :: other in s.toReceiver[1..] ==> other in s.toReceiver;
      ReceiptKeepsHolding(hash, m, s.(toReceiver := s.toReceiver[1..]), s.toReceiver[0], policyAllows, permitFree);
    }
  }

  lemma {:induction false} RunKeepsHolding(hash: Hash, m: Manifest, s: State, actions: seq<Action>)
    requires WellFormed(m) && OwnersFirst(m) && RunHolds(hash, m, s)
    ensures RunHolds(hash, m, Run(hash, m, s, actions))
    decreases |actions|
  {
    hide SessionHolds, SenderStep, ReceiverStep, WellFormed, MayTearInto;
    if actions != [] {
      RunKeepsHolding(hash, m, s, actions[..|actions| - 1]);
      var before := Run(hash, m, s, actions[..|actions| - 1]);
      SenderKeepsHolding(hash, m, before);
      match actions[|actions| - 1]
      case ReceiverActs(policyAllows, permitFree) => ReceiverKeepsHolding(hash, m, before, policyAllows, permitFree);
      case _ =>
    }
  }

  /**
   * Over every run of a manifest in which every file comes before a file named like its part: whenever the
   * receiver acknowledges the transfer, every file is there with its declared content and completion is on record.
   */
  lemma AcknowledgedIsHeld(hash: Hash, m: Manifest, sources: seq<Option<Bytes>>, actions: seq<Action>,
                           policyAllows: bool, permitFree: bool, cp: Checkpoint)
    requires WellFormed(m) && NoReservedName(m) && OwnersFirst(m)
    ensures var s := Run(hash, m, Start(sources), actions);
            var s' := Step(hash, m, s, ReceiverActs(policyAllows, permitFree));
            s'.toSender == s.toSender + [Ack(cp)] ==>
              && HeldBefore(hash, m, s'.store.disk.files, |m.entries|)
              && Ok(cp) == TerminalCheckpoint(m) && s'.store.record == Some(ReceiveState(m, Some(cp), true))
  {
    var s := Run(hash, m, Start(sources), actions);
    RunKeepsHolding(hash, m, Start(sources), actions);
    hide Run;
    AcknowledgingHolds(hash, m, s, policyAllows, permitFree, cp);
  }

  lemma LastSent(messages: seq<Message>, a: Message, b: Message)
    ensures messages + [a] == messages + [b] ==> a == b
    ensures messages != messages + [b]
  {
    assert (messages + [a])[|messages|] == a && (messages + [b])[|messages|] == b;
    assert |messages + [b]| == |messages| + 1;
  }

  /** Only taking a completion claim acknowledges anything. */
  lemma OnlyFinishAcknowledges(hash: Hash, m: Manifest, s: State, message: Message, policyAllows: bool,
                               permitFree: bool, cp: Checkpoint)
    ensures var s' := ReceiverReceives(hash, m, s, message, policyAllows, permitFree);
            s'.toSender == s.toSender + [Ack(cp)] ==>
              && s.receiver.Receiving? && message.Complete?
              && Finish(s.store, s.receiver.session, message.transferred).2 == Ok(cp)
              && s'.store == Finish(s.store, s.receiver.session, message.transferred).0
  {
    hide Prepare, TakeChunk, Finish;
    forall reply: Message ensures s.toSender + [reply] == s.toSender + [Ack(cp)] ==> reply == Ack(cp) {
      LastSent(s.toSender, reply, Ack(cp));
    }
    LastSent(s.toSender, Cancel, Ack(cp));
  }

  lemma FinishHolds(hash: Hash, m: Manifest, store: Store, s: Session, transferred: nat)
    requires SessionHolds(hash, m, store, s) && Finish(store, s, transferred).2.Ok?
    ensures var (store', s', r) := Finish(store, s, transferred);
            && HeldBefore(hash, m, store'.disk.files, |m.entries|)
            && r == TerminalCheckpoint(m) && store'.record == Some(ReceiveState(m, Some(r.value), true))
  {
    hide HeldBefore, TerminalCheckpoint;
  }

  lemma AcknowledgingHolds(hash: Hash, m: Manifest, s: State, policyAllows: bool, permitFree: bool, cp: Checkpoint)
    requires RunHolds(hash, m, s)
    ensures var s' := ReceiverStep(hash, m, s, policyAllows, permitFree);
            s'.toSender == s.toSender + [Ack(cp)] ==>
              && HeldBefore(hash, m, s'.store.disk.files, |m.entries|)
              && Ok(cp) == TerminalCheckpoint(m) && s'.store.record == Some(ReceiveState(m, Some(cp), true))
  {
    hide ReceiverReceives, Finish, HeldBefore, TerminalCheckpoint, SessionHolds;
    LastSent(s.toSender, Cancel, Ack(cp));
    if s.toReceiver != [] && ReceiverStep(hash, m, s, policyAllows, permitFree).toSender == s.toSender + [Ack(cp)] {
      var message := s.toReceiver[0];
      OnlyFinishAcknowledges(hash, m, s.(toReceiver := s.toReceiver[1..]), message, policyAllows, permitFree, cp);
      FinishHolds(hash, m, s.store, s.receiver.session, message.transferred);
    }
  }
}
