/**
 * The receiver keeps its record of a transfer in the transfer's own directory,
 * under a name that path validation admits as an entry: apps/desktop/src/file_transfer.rs:35,
 * 1407-1412, 1500-1529.  The other modules keep the record apart from the files.  Here it is
 * a file among them: the receiver's steps are taken on the disk with the record shown
 * under its name.  For manifests without that name this changes nothing; with it, the
 * transfer is never delivered.
 */
module RecordFile {
  import opened Wrappers
  import opened TransferCheckpoint
  import opened ReceiveDisk
  import opened ReceiveSession
  import opened TransferProtocol
  import opened TransferLockstep
  import opened PartAliases
  import opened AcknowledgedFiles

  /** The bytes a record is written as. */
  type Encoding = ReceiveState -> Bytes

  function With(d: Disk, record: Bytes): Disk {
    d.(files := d.files[RECEIVE_STATE_FILE := record])
  }

  function Without(d: Disk): Disk {
    d.(files := d.files - {RECEIVE_STATE_FILE})
  }

  /** The directory as it is, the record among the files. */
  function Shown(toml: Encoding, store: Store): Store {
    match store.record
    case Some(record) => store.(disk := With(store.disk, toml(record)))
    case None => store
  }

  /** Back to the record kept apart.  A record that was moved aside and not written again is lost. */
  function Hidden(store: Store, written: bool): Store {
    Store(store.rootExists, Without(store.disk),
          if written || RECEIVE_STATE_FILE in store.disk.files then store.record else None)
  }

  /** The receiver's step on the real disk.  A record cannot be written where a directory is. */
  function ReceiverStepOnDisk(
      hash: Hash, toml: Encoding, m: Manifest, s: State, policyAllows: bool, permitFree: bool): State
  {
    var t := ReceiverStep(hash, m, s.(store := Shown(toml, s.store)), policyAllows, permitFree);
    var store := Hidden(t.store, !t.receiver.Listening?);
    if s.receiver.Listening? && !t.receiver.Listening? && DirectoryAt(m, RECEIVE_STATE_FILE) then
      SendToSender(s.(toReceiver := t.toReceiver, store := store.(record := None)), Cancel)
    else t.(store := store)
  }

  /** The torn disk without the record, which is replaced atomically. */
  function TornApart(a: Action): Action {
    match a
    case CrashTearsDisk(torn) => CrashTearsDisk(torn.(disk := Without(torn.disk)))
    case _ => a
  }

  ghost function StepOnDisk(hash: Hash, toml: Encoding, m: Manifest, s: State, a: Action): State {
    match a
    case ReceiverActs(policyAllows, permitFree) => ReceiverStepOnDisk(hash, toml, m, s, policyAllows, permitFree)
    case _ => Step(hash, m, s, TornApart(a))
  }

  ghost function RunOnDisk(hash: Hash, toml: Encoding, m: Manifest, s: State, actions: seq<Action>): State
    decreases |actions|
  {
    if actions == [] then s
    else
      var before := RunOnDisk(hash, toml, m, s, actions[..|actions| - 1]);
      StepOnDisk(hash, toml, m, before, actions[|actions| - 1])
  }

  function TickOnDisk(hash: Hash, toml: Encoding, m: Manifest, s: State): State {
    if s.toReceiver != [] then ReceiverStepOnDisk(hash, toml, m, s, true, true) else SenderStep(hash, m, s)
  }

  function TicksOnDisk(hash: Hash, toml: Encoding, m: Manifest, s: State, n: nat): State
    decreases n
  {
    if n == 0 then s else TicksOnDisk(hash, toml, m, TickOnDisk(hash, toml, m, s), n - 1)
  }

  // ---------------------------------------------------------------- a name nobody wants

  lemma RecordIsNoPart(path: string)
    ensures PartName(path) != RECEIVE_STATE_FILE
  {
    assert PartName(path)[|path| + 4] == 't' && RECEIVE_STATE_FILE[20] == 'l';
    assert |RECEIVE_STATE_FILE| == 21;
  }

  lemma QuarantineWith(d: Disk, name: string, record: Bytes)
    requires name != RECEIVE_STATE_FILE
    ensures Quarantine(With(d, record), name) == With(Quarantine(d, name), record)
  {
  }

  lemma PublishWith(d: Disk, path: string, record: Bytes)
    requires path != RECEIVE_STATE_FILE && PartName(path) in d.files
    ensures Publish(With(d, record), path) == With(Publish(d, path), record)
  {
    RecordIsNoPart(path);
  }

  /** Judging a file does not see the record beside it. */
  lemma SettleWith(hash: Hash, d: Disk, e: Entry, record: Bytes)
    requires e.File? && e.path != RECEIVE_STATE_FILE
    ensures SettleFile(hash, With(d, record), e) ==
            (With(SettleFile(hash, d, e).0, record), SettleFile(hash, d, e).1)
  {
    hide Quarantine, Publish;
    RecordIsNoPart(e.path);
    QuarantineWith(d, e.path, record);
    QuarantineWith(d, PartName(e.path), record);
    SettlePartWith(hash, d, e, record);
    SettlePartWith(hash, Quarantine(d, e.path), e, record);
  }

  lemma SettlePartWith(hash: Hash, d: Disk, e: Entry, record: Bytes)
    requires e.File? && e.path != RECEIVE_STATE_FILE
    ensures SettlePart(hash, With(d, record), e) ==
            (With(SettlePart(hash, d, e).0, record), SettlePart(hash, d, e).1)
  {
    hide Quarantine, Publish;
    RecordIsNoPart(e.path);
    QuarantineWith(d, PartName(e.path), record);
    if PartName(e.path) in d.files {
      PublishWith(d, e.path, record);
    }
  }

  lemma DiscardWith(d: Disk, path: string, record: Bytes)
    requires path != RECEIVE_STATE_FILE
    ensures Discard(With(d, record), path) == With(Discard(d, path), record)
  {
    hide Quarantine;
    RecordIsNoPart(path);
    QuarantineWith(d, path, record);
    QuarantineWith(Quarantine(d, path), PartName(path), record);
  }

  lemma {:induction false} SweepWith(
      hash: Hash, m: Manifest, d: Disk, i: nat, gap: bool, cp: Option<Checkpoint>, record: Bytes)
    requires NoReservedName(m) && i <= |m.entries|
    ensures Reconcile(hash, m, With(d, record), i, gap, cp) ==
            (With(Reconcile(hash, m, d, i, gap, cp).0, record), Reconcile(hash, m, d, i, gap, cp).1)
    decreases |m.entries| - i
  {
    hide Obstructed, SettleFile, Discard, With, AfterVerdict;
    if i < |m.entries| {
      assert m.entries[i] in m.entries;
      if m.entries[i].Directory? {
        SweepWith(hash, m, d, i + 1, gap, cp, record);
      } else if !Obstructed(m, i) {
        if gap {
          DiscardWith(d, m.entries[i].path, record);
          SweepWith(hash, m, Discard(d, m.entries[i].path), i + 1, true, cp, record);
        } else {
          SettleWith(hash, d, m.entries[i], record);
          var (d', verdict) := SettleFile(hash, d, m.entries[i]);
          var (gap', cp') := AfterVerdict(m, i, verdict, cp);
          SweepWith(hash, m, d', i + 1, gap', cp', record);
        }
      }
    }
  }

  /** The checks after the sweep do not look at the disk. */
  lemma OpenSweptAnywhere(m: Manifest, swept: Store, d: Disk, cp: Option<Checkpoint>, wasComplete: bool)
    ensures OpenSwept(m, swept.(disk := d), cp, wasComplete) ==
            (OpenSwept(m, swept, cp, wasComplete).0.(disk := d), OpenSwept(m, swept, cp, wasComplete).1)
  {
    hide NextFilePosition, TerminalCheckpoint, ValidCheckpoint, FirstFileFrom;
  }

  lemma PrepareWith(hash: Hash, m: Manifest, store: Store, record: Bytes)
    requires NoReservedName(m) && store.rootExists
    ensures Prepare(hash, store.(disk := With(store.disk, record)), m) ==
            (var (store', r) := Prepare(hash, store, m); (store'.(disk := With(store'.disk, record)), r))
  {
    hide Reconcile, OpenSwept, With;
    SweepWith(hash, m, store.disk, 0, false, None, record);
    assert DirectoryBlocked(m, With(store.disk, record).files) == DirectoryBlocked(m, store.disk.files) by {
      BlockedWith(m, store.disk, record);
    }
    var (d, r) := Reconciled(hash, m, store.disk);
    if r.Ok? {
      OpenSweptAnywhere(m, Store(true, d, store.record), With(d, record), r.value,
                        store.record.Some? && store.record.value.complete);
    }
  }

  lemma BlockedWith(m: Manifest, d: Disk, record: Bytes)
    requires NoReservedName(m)
    ensures DirectoryBlocked(m, With(d, record).files) == DirectoryBlocked(m, d.files)
  {
  }

  lemma WriterForWith(d: Disk, s: Session, p: Position, record: Bytes)
    requires IsFileAt(s.manifest, p.index) && s.manifest.entries[p.index].path != RECEIVE_STATE_FILE
    ensures WriterFor(With(d, record), s, p) ==
            match WriterFor(d, s, p)
            case Err(error) => Err(error)
            case Ok((d', w)) => Ok((With(d', record), w))
  {
    var e := s.manifest.entries[p.index];
    RecordIsNoPart(e.path);
    assert With(d, record).files[PartName(e.path) := []]
           == With(d.(files := d.files[PartName(e.path) := []]), record).files;
  }

  lemma WriteRawChunkWith(d: Disk, e: Entry, w: PartWriter, chunk: Chunk, record: Bytes)
    ensures WriteRawChunk(With(d, record), e, w, chunk) ==
            match WriteRawChunk(d, e, w, chunk)
            case Err(error) => Err(error)
            case Ok((d', w')) => Ok((With(d', record), w'))
  {
    RecordIsNoPart(e.path);
    var part := PartName(e.path);
    if WriteRawChunk(d, e, w, chunk).Ok? {
      var d' := WriteRawChunk(d, e, w, chunk).value.0;
      assert With(d, record).files[part := d'.files[part]] == With(d', record).files;
    }
  }

  lemma FinalizeWith(hash: Hash, d: Disk, e: Entry, w: PartWriter, record: Bytes)
    requires e.path != RECEIVE_STATE_FILE
    ensures FinalizeVerified(hash, With(d, record), e, w) ==
            (With(FinalizeVerified(hash, d, e, w).0, record), FinalizeVerified(hash, d, e, w).1)
  {
    hide Quarantine, Publish;
    RecordIsNoPart(e.path);
    QuarantineWith(d, PartName(e.path), record);
    if PartName(e.path) in d.files {
      PublishWith(d, e.path, record);
    }
  }

  lemma StoreChunkWith(hash: Hash, d: Disk, s: Session, p: Position, chunk: Chunk, record: Bytes)
    requires IsFileAt(s.manifest, p.index) && s.manifest.entries[p.index].path != RECEIVE_STATE_FILE
    ensures StoreChunk(hash, With(d, record), s, p, chunk) ==
            (With(StoreChunk(hash, d, s, p, chunk).0, record), StoreChunk(hash, d, s, p, chunk).1)
  {
    hide With, WriterFor, WriteRawChunk, FinalizeVerified;
    WriterForWith(d, s, p, record);
    if WriterFor(d, s, p).Ok? {
      var (d1, w) := WriterFor(d, s, p).value;
      var e := s.manifest.entries[p.index];
      WriteRawChunkWith(d1, e, w, chunk, record);
      if WriteRawChunk(d1, e, w, chunk).Ok? {
        var (d2, w2) := WriteRawChunk(d1, e, w, chunk).value;
        FinalizeWith(hash, d2, e, w2, record);
      }
    }
  }

  lemma TakeChunkWith(hash: Hash, store: Store, s: Session, chunk: Chunk, record: Bytes)
    requires NoReservedName(s.manifest)
    ensures TakeChunk(hash, store.(disk := With(store.disk, record)), s, chunk) ==
            (var (store', s', r) := TakeChunk(hash, store, s, chunk);
               (store'.(disk := With(store'.disk, record)), s', r))
  {
    hide With, AdmitChunk, StoreChunk, CheckpointAfterChunk, CheckpointBeforeEntry;
    if AdmitChunk(s, chunk).Ok? {
      var p := AdmitChunk(s, chunk).value;
      assert s.manifest.entries[p.index] in s.manifest.entries;
      StoreChunkWith(hash, store.disk, s, p, chunk, record);
    }
  }

  // ---------------------------------------------------------------- without that name, nothing changes

  /** The record is not among the files, it is there while a session is open, and only `m` is on offer. */
  ghost predicate Apart(m: Manifest, s: State) {
    && RECEIVE_STATE_FILE !in s.store.disk.files
    && (s.store.record.Some? ==> s.store.rootExists)
    && (!s.receiver.Listening? ==> s.store.record.Some? && s.receiver.session.manifest == m)
    && (forall message :: message in s.toReceiver && message.Offer? ==> message.manifest == m)
  }

  /** What opening leaves in any case. */
  lemma PrepareRecords(hash: Hash, store: Store, m: Manifest)
    requires store.record.Some? ==> store.rootExists
    ensures var (store', r) := Prepare(hash, store, m);
            && (store'.record.Some? ==> store'.rootExists)
            && (r.Ok? ==> store'.record.Some? && r.value.manifest == m)
            && (r.Err? ==> store'.record == store.record)
  {
    hide Reconcile, DirectoryBlocked, NextFilePosition, FirstFileFrom, TerminalCheckpoint, ValidCheckpoint;
  }

  lemma PrepareApart(hash: Hash, m: Manifest, store: Store)
    requires NoReservedName(m) && RECEIVE_STATE_FILE !in store.disk.files && (store.record.Some? ==> store.rootExists)
    ensures var (store', r) := Prepare(hash, store, m);
            && RECEIVE_STATE_FILE !in store'.disk.files && (store'.record.Some? ==> store'.rootExists)
            && (r.Ok? ==> store'.record.Some? && r.value.manifest == m)
            && (r.Err? ==> store'.record == store.record)
  {
    hide Reconcile, OpenSwept, NextFilePosition, DirectoryBlocked;
    PrepareRecords(hash, store, m);
    forall k: nat | IsFileAt(m, k) ensures m.entries[k].path != RECEIVE_STATE_FILE {
      assert m.entries[k] in m.entries;
    }
    SweepNames(hash, m, store.disk, 0, false, None, RECEIVE_STATE_FILE);
  }

  lemma TakeChunkApart(hash: Hash, store: Store, s: Session, chunk: Chunk)
    requires NoReservedName(s.manifest) && RECEIVE_STATE_FILE !in store.disk.files && store.record.Some?
    ensures var (store', s', r) := TakeChunk(hash, store, s, chunk);
            && RECEIVE_STATE_FILE !in store'.disk.files && store'.record.Some? && store'.rootExists == store.rootExists
            && s'.manifest == s.manifest
  {
    hide AdmitChunk, StoreChunk, CheckpointAfterChunk, CheckpointBeforeEntry;
    if AdmitChunk(s, chunk).Ok? {
      var p := AdmitChunk(s, chunk).value;
      assert s.manifest.entries[p.index] in s.manifest.entries;
      RecordIsNoPart(s.manifest.entries[p.index].path);
      StoreChunkNames(hash, store.disk, s, p, chunk, RECEIVE_STATE_FILE);
    }
  }

  /** Whatever reaches the receiver, it does the same beside its record. */
  lemma ReceivesWith(
      hash: Hash, m: Manifest, s: State, message: Message, policyAllows: bool, permitFree: bool, record: Bytes)
    requires NoReservedName(m) && Apart(m, s) && s.store.rootExists && (message.Offer? ==> message.manifest == m)
    ensures var t := ReceiverReceives(hash, m, s, message, policyAllows, permitFree);
            ReceiverReceives(hash, m, s.(store := s.store.(disk := With(s.store.disk, record))), message,
                             policyAllows, permitFree) == t.(store := t.store.(disk := With(t.store.disk, record)))
  {
    hide With, ReceiverReceives;
    if s.receiver.Listening? && message.Offer? {
      OfferWith(hash, m, s, message, policyAllows, permitFree, record);
    } else if s.receiver.Receiving? && message.ChunkMessage? {
      ChunkWith(hash, m, s, message, policyAllows, permitFree, record);
    } else {
      OtherAnywhere(hash, m, s, message, policyAllows, permitFree, With(s.store.disk, record));
    }
  }

  function Moved(s: State, d: Disk): State {
    s.(store := s.store.(disk := d))
  }

  lemma OfferWith(
      hash: Hash, m: Manifest, s: State, message: Message, policyAllows: bool, permitFree: bool, record: Bytes)
    requires NoReservedName(m) && s.store.rootExists
    requires s.receiver.Listening? && message.Offer? && message.manifest == m
    ensures var t := ReceiverReceives(hash, m, s, message, policyAllows, permitFree);
            ReceiverReceives(hash, m, Moved(s, With(s.store.disk, record)), message, policyAllows, permitFree) ==
            Moved(t, With(t.store.disk, record))
  {
    hide With, Prepare, OfferedCheckpoint;
    PrepareWith(hash, m, s.store, record);
    var (store', r) := Prepare(hash, s.store, m);
  }

  lemma ChunkWith(
      hash: Hash, m: Manifest, s: State, message: Message, policyAllows: bool, permitFree: bool, record: Bytes)
    requires s.receiver.Receiving? && NoReservedName(s.receiver.session.manifest) && message.ChunkMessage?
    ensures var t := ReceiverReceives(hash, m, s, message, policyAllows, permitFree);
            ReceiverReceives(hash, m, Moved(s, With(s.store.disk, record)), message, policyAllows, permitFree) ==
            Moved(t, With(t.store.disk, record))
  {
    hide With, TakeChunk;
    TakeChunkWith(hash, s.store, s.receiver.session, message.chunk, record);
    var (store', session', r) := TakeChunk(hash, s.store, s.receiver.session, message.chunk);
  }

  /** Nothing else looks at the disk or changes it. */
  lemma OtherAnywhere(
      hash: Hash, m: Manifest, s: State, message: Message, policyAllows: bool, permitFree: bool, d: Disk)
    requires !(s.receiver.Listening? && message.Offer?) && !(s.receiver.Receiving? && message.ChunkMessage?)
    ensures var t := ReceiverReceives(hash, m, s, message, policyAllows, permitFree);
            && ReceiverReceives(hash, m, Moved(s, d), message, policyAllows, permitFree) == Moved(t, d)
            && t.store.disk == s.store.disk
  {
    hide Finish;
    if s.receiver.Receiving? && message.Complete? {
      FinishAnywhere(s.store, d, s.receiver.session, message.transferred);
      var (store', session', r) := Finish(s.store, s.receiver.session, message.transferred);
    }
  }

  lemma FinishAnywhere(store: Store, d: Disk, s: Session, transferred: nat)
    ensures Finish(store.(disk := d), s, transferred) ==
            (var (store', s', r) := Finish(store, s, transferred); (store'.(disk := d), s', r))
    ensures Finish(store, s, transferred).0.disk == store.disk
  {
    hide NextFilePosition, TerminalCheckpoint;
  }

  lemma ReceivesApart(hash: Hash, m: Manifest, s: State, message: Message, policyAllows: bool, permitFree: bool)
    requires NoReservedName(m) && Apart(m, s) && (message.Offer? ==> message.manifest == m)
    ensures var t := ReceiverReceives(hash, m, s, message, policyAllows, permitFree);
            && Apart(m, t)
            && (t.receiver.Listening? && s.store.record.None? ==> t.store.record.None?)
  {
    hide Prepare, TakeChunk, Finish, OfferedCheckpoint;
    if s.receiver.Listening? && message.Offer? {
      PrepareApart(hash, m, s.store);
      var (store', r) := Prepare(hash, s.store, m);
    } else if s.receiver.Receiving? && message.ChunkMessage? {
      TakeChunkApart(hash, s.store, s.receiver.session, message.chunk);
      var (store', session', r) := TakeChunk(hash, s.store, s.receiver.session, message.chunk);
    } else if s.receiver.Receiving? && message.Complete? {
      FinishRecords(s.store, s.receiver.session, message.transferred);
      var (store', session', r) := Finish(s.store, s.receiver.session, message.transferred);
    }
  }

  lemma FinishRecords(store: Store, s: Session, transferred: nat)
    requires store.record.Some?
    ensures var (store', s', r) := Finish(store, s, transferred);
            && store'.record.Some? && store'.disk == store.disk && store'.rootExists == store.rootExists
            && (NextFilePosition(s.manifest, s.checkpoint) != Ok(None) ==> r.Err? && store' == store)
  {
    hide NextFilePosition, TerminalCheckpoint;
  }

  /** The receiver's steps on the real disk are its steps with the record apart. */
  lemma ReceiverStepSame(hash: Hash, toml: Encoding, m: Manifest, s: State, policyAllows: bool, permitFree: bool)
    requires NoReservedName(m) && Apart(m, s)
    ensures ReceiverStepOnDisk(hash, toml, m, s, policyAllows, permitFree) ==
            ReceiverStep(hash, m, s, policyAllows, permitFree)
    ensures Apart(m, ReceiverStep(hash, m, s, policyAllows, permitFree))
  {
    hide ReceiverReceives;
    NoRecordDirectory(m);
    if s.toReceiver != [] {
      var popped := s.(toReceiver := s.toReceiver[1..]);
      assert s.toReceiver[0] in s.toReceiver;
      assert forall other :: other in s.toReceiver[1..] ==> other in s.toReceiver;
      ReceivesApart(hash, m, popped, s.toReceiver[0], policyAllows, permitFree);
      if s.store.record.Some? {
        var record := toml(s.store.record.value);
        ReceivesWith(hash, m, popped, s.toReceiver[0], policyAllows, permitFree, record);
        var t := ReceiverReceives(hash, m, popped, s.toReceiver[0], policyAllows, permitFree);
        HiddenAgain(t.store, record);
      } else {
        HiddenAsIs(ReceiverReceives(hash, m, popped, s.toReceiver[0], policyAllows, permitFree).store);
      }
    } else if s.store.record.Some? {
      HiddenAgain(s.store, toml(s.store.record.value));
    } else {
      HiddenAsIs(s.store);
    }
  }

  lemma NoRecordDirectory(m: Manifest)
    requires NoReservedName(m)
    ensures !DirectoryAt(m, RECEIVE_STATE_FILE)
  {
  }

  lemma HiddenAgain(store: Store, record: Bytes)
    requires RECEIVE_STATE_FILE !in store.disk.files
    ensures forall written: bool :: Hidden(store.(disk := With(store.disk, record)), written) == store
  {
    assert Without(With(store.disk, record)).files == store.disk.files;
  }

  lemma HiddenAsIs(store: Store)
    requires RECEIVE_STATE_FILE !in store.disk.files
    ensures Hidden(store, true) == store && (store.record.None? ==> Hidden(store, false) == store)
  {
    assert Without(store.disk).files == store.disk.files;
  }

  function AllApart(actions: seq<Action>): (r: seq<Action>)
    ensures |r| == |actions|
  {
    seq(|actions|, i requires 0 <= i < |actions| => TornApart(actions[i]))
  }

  lemma SenderStepApart(hash: Hash, m: Manifest, s: State)
    requires Apart(m, s)
    ensures Apart(m, SenderStep(hash, m, s))
  {
    hide StreamFile, SenderReceives;
    if s.sender.Streaming? && IsFileAt(m, s.sender.index) {
      StreamingOffersNothing(hash, m, s, s.sender.resume, s.sender.index, s.sender.reader);
    }
    if s.toSender != [] {
      AnsweringOffersNothing(m, s.(toSender := s.toSender[1..]), s.toSender[0]);
    }
  }

  lemma OtherStepApart(hash: Hash, m: Manifest, s: State, a: Action)
    requires Apart(m, s) && !a.ReceiverActs? && !a.SenderActs?
    ensures Apart(m, Step(hash, m, s, TornApart(a)))
  {
    hide Delivered, Lost, Overtaken;
  }

  /** Over every run, the real disk and the record beside it go the same way if no entry has the record's name. */
  lemma {:induction false} RunOnDiskIsRun(hash: Hash, toml: Encoding, m: Manifest, s: State, actions: seq<Action>)
    requires NoReservedName(m) && Apart(m, s)
    ensures RunOnDisk(hash, toml, m, s, actions) == Run(hash, m, s, AllApart(actions))
    ensures Apart(m, RunOnDisk(hash, toml, m, s, actions))
    decreases |actions|
  {
    hide Apart, ReceiverStepOnDisk, ReceiverStep, SenderStep;
    if actions != [] {
      var front, a := actions[..|actions| - 1], actions[|actions| - 1];
      RunOnDiskIsRun(hash, toml, m, s, front);
      assert AllApart(actions)[..|actions| - 1] == AllApart(front);
      var before := RunOnDisk(hash, toml, m, s, front);
      match a
      case ReceiverActs(policyAllows, permitFree) => ReceiverStepSame(hash, toml, m, before, policyAllows, permitFree);
      case SenderActs => SenderStepApart(hash, m, before);
      case _ => OtherStepApart(hash, m, before, a);
    }
  }

  /** The record a sender keeps is safe on the real disk as well. */
  lemma QueueRemovedOnDisk(hash: Hash, toml: Encoding, m: Manifest, sources: seq<Option<Bytes>>, actions: seq<Action>)
    requires Separate(m)
    ensures var s := RunOnDisk(hash, toml, m, Start(sources), actions);
            !s.queued ==> Completed(hash, m, s.store)
  {
    RunOnDiskIsRun(hash, toml, m, Start(sources), actions);
    QueueRemovedOnlyWhenDelivered(hash, m, sources, AllApart(actions));
  }

  lemma {:induction false} TicksOnDiskAreTicks(hash: Hash, toml: Encoding, m: Manifest, s: State, n: nat)
    requires NoReservedName(m) && Apart(m, s)
    ensures TicksOnDisk(hash, toml, m, s, n) == Ticks(hash, m, s, n)
    decreases n
  {
    hide Apart, ReceiverStepOnDisk, ReceiverStep, SenderStep;
    if n > 0 {
      ReceiverStepSame(hash, toml, m, s, true, true);
      SenderStepApart(hash, m, s);
      TicksOnDiskAreTicks(hash, toml, m, Tick(hash, m, s), n - 1);
    }
  }

  // ---------------------------------------------------------------- with it, nothing is delivered

  /** A directory has the record's name, or file `r` has and no record is its declared content. */
  ghost predicate TakesRecordName(hash: Hash, toml: Encoding, m: Manifest, r: nat) {
    && r < |m.entries| && m.entries[r].path == RECEIVE_STATE_FILE
    && (m.entries[r].File? ==> forall state: ReceiveState :: !Matches(hash, m.entries[r], toml(state)))
  }

  /** The session never gets past the record's name. */
  ghost predicate StopsAt(m: Manifest, r: nat, s: Session) {
    && s.manifest == m && IsFileAt(m, r) && NextFilePosition(m, s.checkpoint).Ok?
    && NextFilePosition(m, s.checkpoint).value.Some? && NextFilePosition(m, s.checkpoint).value.value.index <= r
    && (s.writer.Some? ==> s.writer.value.index < r)
  }

  ghost predicate Hopeless(m: Manifest, r: nat, s: State)
    requires r < |m.entries|
  {
    && s.queued && (forall message :: message in s.toSender ==> !message.Ack?)
    && Apart(m, s) && (IsFileAt(m, r) ==> PartName(RECEIVE_STATE_FILE) !in s.store.disk.files)
    && (!s.receiver.Listening? ==> StopsAt(m, r, s.receiver.session))
  }

  /** Nothing complete lies under the two names of file `r`. */
  ghost predicate Unverified(hash: Hash, m: Manifest, d: Disk, r: nat)
    requires IsFileAt(m, r)
  {
    && PartAt(m, d.files, r).None?
    && (FinalAt(m, d.files, r).Some? ==> !Matches(hash, m.entries[r], FinalAt(m, d.files, r).value))
  }

  lemma SettleElsewhere(hash: Hash, m: Manifest, d: Disk, i: nat, r: nat)
    requires WellFormed(m) && NoPartAlias(m) && IsFileAt(m, i) && IsFileAt(m, r) && i != r && Unverified(hash, m, d, r)
    ensures Unverified(hash, m, SettleFile(hash, d, m.entries[i]).0, r)
  {
    hide SettleFile, WellFormed, NoPartAlias, Matches;
    SettleNames(hash, d, m.entries[i]);
    NamesNotAliased(m, i, r);
  }

  lemma NamesNotAliased(m: Manifest, i: nat, r: nat)
    requires WellFormed(m) && NoPartAlias(m) && IsFileAt(m, i) && IsFileAt(m, r) && i != r
    ensures m.entries[r].path != m.entries[i].path && m.entries[r].path != PartName(m.entries[i].path)
    ensures PartName(m.entries[r].path) != m.entries[i].path
    ensures PartName(m.entries[r].path) != PartName(m.entries[i].path)
  {
    PathsApart(m, i, r);
    PartNameInjective(m.entries[i].path, m.entries[r].path);
    assert !Aliases(m, i, r) && !Aliases(m, r, i);
  }

  lemma SettleUnverified(hash: Hash, m: Manifest, d: Disk, r: nat)
    requires IsFileAt(m, r) && Unverified(hash, m, d, r)
    ensures SettleFile(hash, d, m.entries[r]).1 == Broken
  {
    PartNameInjective(m.entries[r].path, m.entries[r].path);
  }

  /** The sweep counts no file from `r` on. */
  lemma {:induction false} SweepStopsAt(
      hash: Hash, m: Manifest, d: Disk, i: nat, gap: bool, cp: Option<Checkpoint>, r: nat)
    requires WellFormed(m) && NoPartAlias(m) && IsFileAt(m, r) && i <= |m.entries|
    requires if gap then NextFilePosition(m, cp).Ok? && NextFilePosition(m, cp).value.Some?
                         && NextFilePosition(m, cp).value.value.index <= r
             else i <= r && cp == CheckpointBeforeEntry(m, i) && Unverified(hash, m, d, r)
    ensures var result := Reconcile(hash, m, d, i, gap, cp).1;
            result.Ok? ==> && NextFilePosition(m, result.value).Ok? && NextFilePosition(m, result.value).value.Some?
                           && NextFilePosition(m, result.value).value.value.index <= r
    decreases |m.entries| - i
  {
    hide Obstructed, SettleFile, Discard, AfterVerdict, NextFilePosition, CheckpointBeforeEntry, WellFormed,
         NoPartAlias,
         Unverified;
    if i < |m.entries| {
      if m.entries[i].Directory? {
        SkipsDirectory(m, i);
        SweepStopsAt(hash, m, d, i + 1, gap, cp, r);
      } else if !Obstructed(m, i) {
        if gap {
          SweepStopsAt(hash, m, Discard(d, m.entries[i].path), i + 1, true, cp, r);
        } else {
          var (d', verdict) := SettleFile(hash, d, m.entries[i]);
          var (gap', cp') := AfterVerdict(m, i, verdict, cp);
          PartialIsShort(hash, d, m.entries[i]);
          AfterVerdictPlace(m, i, verdict);
          if i == r {
            SettleUnverified(hash, m, d, r);
            BrokenIsGap(m, i, cp);
          } else {
            SettleElsewhere(hash, m, d, i, r);
          }
          SweepStopsAt(hash, m, d', i + 1, gap', cp', r);
        }
      }
    }
  }

  lemma BrokenIsGap(m: Manifest, i: nat, cp: Option<Checkpoint>)
    requires IsFileAt(m, i)
    ensures AfterVerdict(m, i, Broken, cp) == (true, cp)
  {
  }

  lemma ShownUnverified(hash: Hash, toml: Encoding, m: Manifest, r: nat, store: Store)
    requires TakesRecordName(hash, toml, m, r) && IsFileAt(m, r)
    requires RECEIVE_STATE_FILE !in store.disk.files && PartName(RECEIVE_STATE_FILE) !in store.disk.files
    ensures Unverified(hash, m, Shown(toml, store).disk, r)
            && PartName(RECEIVE_STATE_FILE) !in Shown(toml, store).disk.files
  {
    PartNameInjective(RECEIVE_STATE_FILE, RECEIVE_STATE_FILE);
  }

  lemma PrepareStopsAt(hash: Hash, toml: Encoding, m: Manifest, r: nat, store: Store)
    requires WellFormed(m) && NoPartAlias(m) && TakesRecordName(hash, toml, m, r) && IsFileAt(m, r)
    requires RECEIVE_STATE_FILE !in store.disk.files && PartName(RECEIVE_STATE_FILE) !in store.disk.files
    ensures var (store', result) := Prepare(hash, Shown(toml, store), m);
            PartName(RECEIVE_STATE_FILE) !in store'.disk.files && (result.Ok? ==> StopsAt(m, r, result.value))
  {
    hide Reconcile, OpenSwept, WellFormed, NoPartAlias, DirectoryBlocked, NextFilePosition, Unverified;
    ShownUnverified(hash, toml, m, r, store);
    var shown := Shown(toml, store);
    var name := PartName(RECEIVE_STATE_FILE);
    assert CheckpointBeforeEntry(m, 0) == None;
    SweepStopsAt(hash, m, shown.disk, 0, false, None, r);
    forall k: nat | IsFileAt(m, k) ensures m.entries[k].path != name {
      NotThePart(m, r, k);
    }
    SweepNames(hash, m, shown.disk, 0, false, None, name);
    var (d, swept) := Reconciled(hash, m, shown.disk);
    OpenSweptIs(m, Store(true, d, if shown.rootExists then shown.record else None),
                if swept.Ok? then swept.value else None,
                shown.rootExists && shown.record.Some? && shown.record.value.complete);
  }

  lemma NotThePart(m: Manifest, r: nat, k: nat)
    requires NoPartAlias(m) && IsFileAt(m, r) && IsFileAt(m, k)
    ensures m.entries[k].path != PartName(m.entries[r].path)
  {
    assert !Aliases(m, r, k);
  }

  /** With the record in its place, no chunk of file `r` is taken, and others do not lead past it. */
  lemma ChunkStopsAt(hash: Hash, m: Manifest, r: nat, store: Store, s: Session, chunk: Chunk)
    requires WellFormed(m) && NoPartAlias(m) && IsFileAt(m, r) && m.entries[r].path in store.disk.files
    requires StopsAt(m, r, s) && PartName(m.entries[r].path) !in store.disk.files && store.record.Some?
    ensures var (store', s', result) := TakeChunk(hash, store, s, chunk);
            && PartName(m.entries[r].path) !in store'.disk.files && m.entries[r].path in store'.disk.files
            && store'.record.Some? && store'.rootExists == store.rootExists && s'.manifest == m
            && (result.Ok? ==> StopsAt(m, r, s'))
  {
    hide AdmitChunk, StoreChunk, TakeChunk, NextFilePosition, WellFormed, NoPartAlias, CheckpointBeforeEntry,
         CheckpointAfterChunk, StartOfFileFrom, BytesBefore;
    if AdmitChunk(s, chunk).Err? {
      RefusedUnseen(hash, store, s, chunk);
    } else {
      AdmittedStored(hash, store, s, chunk);
      AdmittedChunk(s, chunk);
      var p := AdmitChunk(s, chunk).value;
      var (d, outcome) := StoreChunk(hash, store.disk, s, p, chunk);
      if p.index == r {
        RecordRefusesWriter(hash, store.disk, s, p, chunk);
      } else {
        NamesNotAliased(m, p.index, r);
        StoreChunkNames(hash, store.disk, s, p, chunk, PartName(m.entries[r].path));
        StoreChunkTouchesOnlyItsPart(hash, store.disk, s, p, chunk, m.entries[r].path);
        StoredBefore(hash, store.disk, s, p, chunk);
        ChunkAdvancesPosition(m, s.checkpoint, chunk.plainLen);
        NextFileAtMost(m, p.index + 1, r);
      }
    }
  }

  /** A file whose destination is taken is not written to. */
  lemma RecordRefusesWriter(hash: Hash, d: Disk, s: Session, p: Position, chunk: Chunk)
    requires IsFileAt(s.manifest, p.index) && s.manifest.entries[p.index].path in d.files && chunk.index == p.index
    requires s.writer.Some? ==> s.writer.value.index < p.index
    ensures var (d', outcome) := StoreChunk(hash, d, s, p, chunk); d' == d && outcome.Failed?
  {
  }

  lemma StoredBefore(hash: Hash, d: Disk, s: Session, p: Position, chunk: Chunk)
    requires IsFileAt(s.manifest, p.index) && chunk.index == p.index
    ensures var outcome := StoreChunk(hash, d, s, p, chunk).1; outcome.StillPartial? ==> outcome.writer.index == p.index
  {
    hide Quarantine, Publish;
  }

  lemma {:induction false} NextFileAtMost(m: Manifest, start: nat, r: nat)
    requires start <= r && IsFileAt(m, r)
    ensures StartOfFileFrom(m, start).Some? && StartOfFileFrom(m, start).value.index <= r
    decreases r - start
  {
    if start < r && m.entries[start].Directory? {
      NextFileAtMost(m, start + 1, r);
    }
  }

  /** The invariant for what the receiver's step on the real disk leaves, before the record is set apart again. */
  ghost predicate HopelessShown(m: Manifest, r: nat, t: State)
    requires r < |m.entries|
  {
    && t.queued && (forall message :: message in t.toSender ==> !message.Ack?)
    && (t.store.record.Some? ==> t.store.rootExists)
    && (!t.receiver.Listening? ==> t.store.record.Some? && t.receiver.session.manifest == m)
    && (forall message :: message in t.toReceiver && message.Offer? ==> message.manifest == m)
    && (IsFileAt(m, r) ==> PartName(RECEIVE_STATE_FILE) !in t.store.disk.files)
    && (IsFileAt(m, r) && !t.receiver.Listening? ==> StopsAt(m, r, t.receiver.session))
  }

  lemma ShownHopeless(hash: Hash, toml: Encoding, m: Manifest, r: nat, s: State)
    requires TakesRecordName(hash, toml, m, r) && Hopeless(m, r, s)
    ensures HopelessShown(m, r, s.(store := Shown(toml, s.store)))
  {
    hide StopsAt;
    PartNameInjective(RECEIVE_STATE_FILE, RECEIVE_STATE_FILE);
  }

  lemma HiddenHopeless(hash: Hash, toml: Encoding, m: Manifest, r: nat, t: State)
    requires TakesRecordName(hash, toml, m, r) && HopelessShown(m, r, t)
    ensures var store := Hidden(t.store, !t.receiver.Listening?);
            && ((t.receiver.Listening? || IsFileAt(m, r)) ==> Hopeless(m, r, t.(store := store)))
            && (IsFileAt(m, r) ==> PartName(RECEIVE_STATE_FILE) !in store.disk.files)
            && RECEIVE_STATE_FILE !in store.disk.files
  {
    hide StopsAt;
  }

  lemma OfferHopeless(hash: Hash, toml: Encoding, m: Manifest, r: nat, s: State, message: Message,
                      policyAllows: bool, permitFree: bool)
    requires WellFormed(m) && NoPartAlias(m) && TakesRecordName(hash, toml, m, r) && Hopeless(m, r, s)
    requires s.receiver.Listening? && message.Offer? && message.manifest == m
    ensures HopelessShown(m, r, ReceiverReceives(hash, m, s.(store := Shown(toml, s.store)), message,
                                                 policyAllows, permitFree))
  {
    hide Prepare, StopsAt, WellFormed, NoPartAlias, OfferedCheckpoint;
    ShownHopeless(hash, toml, m, r, s);
    var (store', result) := Prepare(hash, Shown(toml, s.store), m);
    PrepareRecords(hash, Shown(toml, s.store), m);
    if IsFileAt(m, r) {
      PrepareStopsAt(hash, toml, m, r, s.store);
    }
  }

  lemma ChunkHopeless(hash: Hash, toml: Encoding, m: Manifest, r: nat, s: State, message: Message,
                      policyAllows: bool, permitFree: bool)
    requires WellFormed(m) && NoPartAlias(m) && TakesRecordName(hash, toml, m, r) && Hopeless(m, r, s)
    requires s.receiver.Receiving? && message.ChunkMessage?
    ensures HopelessShown(m, r, ReceiverReceives(hash, m, s.(store := Shown(toml, s.store)), message,
                                                 policyAllows, permitFree))
  {
    hide TakeChunk, StopsAt, WellFormed, NoPartAlias;
    ShownHopeless(hash, toml, m, r, s);
    FileWhenOpen(m, r, s.receiver.session);
    ChunkStopsAt(hash, m, r, Shown(toml, s.store), s.receiver.session, message.chunk);
    var (store', s', result) := TakeChunk(hash, Shown(toml, s.store), s.receiver.session, message.chunk);
  }

  lemma FileWhenOpen(m: Manifest, r: nat, s: Session)
    requires StopsAt(m, r, s)
    ensures IsFileAt(m, r) && s.manifest == m && NextFilePosition(m, s.checkpoint).Ok?
    ensures NextFilePosition(m, s.checkpoint) != Ok(None)
  {
  }

  lemma OtherHopeless(hash: Hash, toml: Encoding, m: Manifest, r: nat, s: State, message: Message,
                      policyAllows: bool, permitFree: bool)
    requires TakesRecordName(hash, toml, m, r) && Hopeless(m, r, s)
    requires !(s.receiver.Listening? && message.Offer?) && !(s.receiver.Receiving? && message.ChunkMessage?)
    ensures HopelessShown(m, r, ReceiverReceives(hash, m, s.(store := Shown(toml, s.store)), message,
                                                 policyAllows, permitFree))
  {
    hide StopsAt, NextFilePosition, Finish;
    ShownHopeless(hash, toml, m, r, s);
    if !s.receiver.Listening? {
      FileWhenOpen(m, r, s.receiver.session);
      if message.Complete? {
        FinishRecords(Shown(toml, s.store), s.receiver.session, message.transferred);
        var (store', session', result) := Finish(Shown(toml, s.store), s.receiver.session, message.transferred);
      }
    }
  }

  lemma ReceiverStepHopeless(
      hash: Hash, toml: Encoding, m: Manifest, r: nat, s: State, policyAllows: bool, permitFree: bool)
    requires WellFormed(m) && NoPartAlias(m) && TakesRecordName(hash, toml, m, r) && Hopeless(m, r, s)
    ensures Hopeless(m, r, ReceiverStepOnDisk(hash, toml, m, s, policyAllows, permitFree))
  {
    hide ReceiverReceives, WellFormed, NoPartAlias, StopsAt, HopelessShown, Hidden, Shown;
    var t := ReceiverStep(hash, m, s.(store := Shown(toml, s.store)), policyAllows, permitFree);
    assert HopelessShown(m, r, t) by {
      if s.toReceiver == [] {
        ShownHopeless(hash, toml, m, r, s);
      } else {
        var popped, message := s.(toReceiver := s.toReceiver[1..]), s.toReceiver[0];
        PoppedHopeless(m, r, s);
        if s.receiver.Listening? && message.Offer? {
          OfferHopeless(hash, toml, m, r, popped, message, policyAllows, permitFree);
        } else if s.receiver.Receiving? && message.ChunkMessage? {
          ChunkHopeless(hash, toml, m, r, popped, message, policyAllows, permitFree);
        } else {
          OtherHopeless(hash, toml, m, r, popped, message, policyAllows, permitFree);
        }
      }
    }
    HiddenHopeless(hash, toml, m, r, t);
    if t.receiver.Listening? || IsFileAt(m, r) {
      FileIsNoDirectory(m, r);
    } else {
      TurnedAwayHopeless(m, r, s, t, Hidden(t.store, !t.receiver.Listening?));
      FileIsNoDirectory(m, r);
    }
  }

  lemma PoppedHopeless(m: Manifest, r: nat, s: State)
    requires r < |m.entries| && Hopeless(m, r, s) && s.toReceiver != []
    ensures Hopeless(m, r, s.(toReceiver := s.toReceiver[1..]))
    ensures s.toReceiver[0].Offer? ==> s.toReceiver[0].manifest == m
  {
    hide StopsAt;
    assert s.toReceiver[0] in s.toReceiver;
    assert forall other :: other in s.toReceiver[1..] ==> other in s.toReceiver;
  }

  lemma FileIsNoDirectory(m: Manifest, r: nat)
    requires WellFormed(m) && r < |m.entries| && m.entries[r].path == RECEIVE_STATE_FILE
    ensures DirectoryAt(m, RECEIVE_STATE_FILE) <==> m.entries[r].Directory?
  {
    assert m.entries[r] in m.entries;
    if DirectoryAt(m, RECEIVE_STATE_FILE) {
      var e :| e in m.entries && e.Directory? && e.path == RECEIVE_STATE_FILE;
      var j :| 0 <= j < |m.entries| && m.entries[j] == e;
      if j != r {
        PathsApart(m, j, r);
      }
    }
  }

  lemma TurnedAwayHopeless(m: Manifest, r: nat, s: State, t: State, store: Store)
    requires r < |m.entries| && !IsFileAt(m, r) && Hopeless(m, r, s) && HopelessShown(m, r, t)
    requires RECEIVE_STATE_FILE !in store.disk.files
    ensures s.receiver.Listening?
    ensures Hopeless(m, r, SendToSender(s.(toReceiver := t.toReceiver, store := store.(record := None)), Cancel))
  {
  }

  /** The disk is torn only by a crash. */
  predicate NoTear(actions: seq<Action>) {
    forall a :: a in actions ==> !a.CrashTearsDisk?
  }

  lemma SenderStepHopeless(hash: Hash, m: Manifest, r: nat, s: State)
    requires r < |m.entries| && Hopeless(m, r, s)
    ensures Hopeless(m, r, SenderStep(hash, m, s))
  {
    hide StopsAt, StreamFile, SenderReceives, Apart;
    SenderStepApart(hash, m, s);
    if s.toSender != [] {
      assert s.toSender[0] in s.toSender;
      assert forall other :: other in s.toSender[1..] ==> other in s.toSender;
      AnswerMoves(hash, m, s.(toSender := s.toSender[1..]), s.toSender[0]);
    }
    if s.sender.Streaming? && IsFileAt(m, s.sender.index) {
      StreamingStaysQueued(hash, m, s, s.sender.resume, s.sender.index, s.sender.reader);
    }
  }

  lemma StreamingStaysQueued(
      hash: Hash, m: Manifest, s: State, resume: Option<Checkpoint>, index: nat, reader: Option<Reader>)
    requires IsFileAt(m, index)
    ensures var t := StreamFile(hash, m, s, resume, index, reader);
            t.queued == s.queued && t.toSender == s.toSender && t.store == s.store && t.receiver == s.receiver
  {
    hide OpenReader, NextChunk, CheckpointAfterChunk;
  }

  lemma OtherStepHopeless(hash: Hash, m: Manifest, r: nat, s: State, a: Action)
    requires r < |m.entries| && Hopeless(m, r, s) && !a.ReceiverActs? && !a.SenderActs? && !a.CrashTearsDisk?
    ensures Hopeless(m, r, Step(hash, m, s, a))
  {
    hide StopsAt, Lost, Overtaken;
  }

  lemma {:induction false} RunHopeless(
      hash: Hash, toml: Encoding, m: Manifest, r: nat, s: State, actions: seq<Action>)
    requires WellFormed(m) && NoPartAlias(m) && TakesRecordName(hash, toml, m, r) && Hopeless(m, r, s)
             && NoTear(actions)
    ensures Hopeless(m, r, RunOnDisk(hash, toml, m, s, actions))
    decreases |actions|
  {
    hide Hopeless, ReceiverStepOnDisk, SenderStep, WellFormed, NoPartAlias, TakesRecordName;
    if actions != [] {
      var front, a := actions[..|actions| - 1], actions[|actions| - 1];
      assert a in actions && forall b :: b in front ==> b in actions;
      RunHopeless(hash, toml, m, r, s, front);
      var before := RunOnDisk(hash, toml, m, s, front);
      assert r < |m.entries| by { NameIsThere(hash, toml, m, r); }
      match a
      case ReceiverActs(policyAllows, permitFree) =>
        ReceiverStepHopeless(hash, toml, m, r, before, policyAllows, permitFree);
      case SenderActs => SenderStepHopeless(hash, m, r, before);
      case _ => OtherStepHopeless(hash, m, r, before, a);
    }
  }

  lemma NameIsThere(hash: Hash, toml: Encoding, m: Manifest, r: nat)
    requires TakesRecordName(hash, toml, m, r)
    ensures r < |m.entries|
  {
  }

  /**
   * A transfer with an entry named like the record is never delivered: over every run of both peers in which no
   * crash tears the disk, its queue record stays, and so does every attempt's refusal.
   */
  lemma RecordNameIsNeverDelivered(
      hash: Hash, toml: Encoding, m: Manifest, r: nat, sources: seq<Option<Bytes>>, actions: seq<Action>)
    requires WellFormed(m) && NoPartAlias(m) && TakesRecordName(hash, toml, m, r) && NoTear(actions)
    ensures RunOnDisk(hash, toml, m, Start(sources), actions).queued
  {
    RunHopeless(hash, toml, m, r, Start(sources), actions);
  }

  lemma {:induction false} TicksHopeless(hash: Hash, toml: Encoding, m: Manifest, r: nat, s: State, n: nat)
    requires WellFormed(m) && NoPartAlias(m) && TakesRecordName(hash, toml, m, r) && Hopeless(m, r, s)
    ensures TicksOnDisk(hash, toml, m, s, n).queued
    decreases n
  {
    hide ReceiverStepOnDisk, SenderStep, WellFormed, NoPartAlias, TakesRecordName;
    NameIsThere(hash, toml, m, r);
    if n > 0 {
      if s.toReceiver != [] {
        ReceiverStepHopeless(hash, toml, m, r, s, true, true);
      } else {
        SenderStepHopeless(hash, m, r, s);
      }
      TicksHopeless(hash, toml, m, r, TickOnDisk(hash, toml, m, s), n - 1);
    }
  }

  lemma EndsAlike(hash: Hash, toml: Encoding, m: Manifest, s: State)
    requires NoReservedName(m) && Apart(m, s)
    ensures (exists n: nat :: !TicksOnDisk(hash, toml, m, s, n).queued) <==>
            (exists n: nat :: !Ticks(hash, m, s, n).queued)
  {
    hide TicksOnDisk, Ticks, Apart;
    if n: nat :| !TicksOnDisk(hash, toml, m, s, n).queued {
      TicksOnDiskAreTicks(hash, toml, m, s, n);
      assert !Ticks(hash, m, s, n).queued;
    } else {
      forall n: nat ensures Ticks(hash, m, s, n).queued {
        TicksOnDiskAreTicks(hash, toml, m, s, n);
        assert TicksOnDisk(hash, toml, m, s, n).queued;
      }
    }
  }

  /**
   * On the real disk a first attempt, undisturbed and with intact sources, is delivered exactly when no directory is
   * named like a file's part and no entry is named like the record.
   */
  lemma FirstAttemptOnDiskIff(hash: Hash, toml: Encoding, m: Manifest, sources: seq<Option<Bytes>>)
    requires WellFormed(m) && NoPartAlias(m) && SourcesIntact(hash, m, sources)
    requires forall r: nat ::
               r < |m.entries| && m.entries[r].path == RECEIVE_STATE_FILE ==> TakesRecordName(hash, toml, m, r)
    ensures (exists n: nat :: !TicksOnDisk(hash, toml, m, Start(sources), n).queued) <==>
            NoPartDirectory(m) && NoReservedName(m)
  {
    hide TicksOnDisk, Ticks, WellFormed, NoPartAlias, NoPartDirectory, TakesRecordName, SourcesIntact;
    if NoReservedName(m) {
      EndsAlike(hash, toml, m, Start(sources));
      FirstAttemptDeliversIff(hash, m, sources);
    } else {
      var e :| e in m.entries && e.path == RECEIVE_STATE_FILE;
      var r :| 0 <= r < |m.entries| && m.entries[r] == e;
      forall n: nat ensures TicksOnDisk(hash, toml, m, Start(sources), n).queued {
        TicksHopeless(hash, toml, m, r, Start(sources), n);
      }
    }
  }

  /**
   * The same from whatever earlier attempts left, if they left nothing under the part name of the record's name:
   * no entry may be named like the record, beside the conditions of `TransferLockstep.DeliversIff`.
   */
  lemma DeliversOnDiskIff(hash: Hash, toml: Encoding, m: Manifest, s: State)
    requires WellFormed(m) && NoPartAlias(m) && Rested(hash, m, s) && Apart(m, s)
    requires PartName(RECEIVE_STATE_FILE) !in s.store.disk.files
    requires forall r: nat ::
               r < |m.entries| && m.entries[r].path == RECEIVE_STATE_FILE ==> TakesRecordName(hash, toml, m, r)
    ensures (exists n: nat :: !TicksOnDisk(hash, toml, m, s, n).queued) <==>
            NoReservedName(m) && MayOpen(m, s.store) && NoFinishedEmptyFile(m, ResumePoint(hash, m, s))
  {
    hide TicksOnDisk, Ticks, WellFormed, NoPartAlias, MayOpen, NoFinishedEmptyFile, TakesRecordName, Reconciled,
         ReceiverSound;
    if NoReservedName(m) {
      EndsAlike(hash, toml, m, s);
      DeliversIff(hash, m, s);
    } else {
      var e :| e in m.entries && e.path == RECEIVE_STATE_FILE;
      var r :| 0 <= r < |m.entries| && m.entries[r] == e;
      forall n: nat ensures TicksOnDisk(hash, toml, m, s, n).queued {
        TicksHopeless(hash, toml, m, r, s, n);
      }
    }
  }
}
