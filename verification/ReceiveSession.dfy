/**
 * One inbound transfer on the receiver: opening it over whatever the disk holds,
 * taking chunks, and closing it.  apps/desktop/src/file_transfer.rs:138-202,
 * 1051-1161, 1163-1282, 1284-1352 and crates/streaming/src/file_transfer_disk.rs:226-470.
 */
module ReceiveSession {
  import opened Wrappers
  import opened TransferCheckpoint
  import opened ReceiveDisk

  /** A chunk as it arrives; `raw` says it is marked uncompressed. */
  datatype Chunk = Chunk(id: TransferId, index: nat, offset: nat, plainLen: nat, raw: bool, last: bool, payload: Bytes)

  /** The record kept beside the files.  The manifest stands for its stored digest. */
  datatype ReceiveState = ReceiveState(manifest: Manifest, checkpoint: Option<Checkpoint>, complete: bool)

  /** Everything that survives a crash: the directory, the files in it, and the record. */
  datatype Store = Store(rootExists: bool, disk: Disk, record: Option<ReceiveState>)

  /** An open part file; `absorbed` is what the hasher has been fed. */
  datatype PartWriter = PartWriter(index: nat, expectedLen: nat, offset: nat, complete: bool, absorbed: Bytes,
                                   expectedDigest: Digest)

  datatype Session = Session(manifest: Manifest, checkpoint: Option<Checkpoint>, complete: bool,
                             writer: Option<PartWriter>)

  const UNEXPECTED_FILES: string := "completed directory transfer has unexpected files"
  const DESTINATION_CHANGED: string := "completed transfer destination no longer matches its manifest"
  const DIGEST_MISMATCH: string := "received file content digest mismatch"

  // ---------------------------------------------------------------- the part writer

  function CreateWriter(d: Disk, e: Entry, index: nat): Result<(Disk, PartWriter), string>
    requires e.File?
  {
    if e.path in d.files || PartName(e.path) in d.files then Err("destination exists")
    else Ok((d.(files := d.files[PartName(e.path) := []]), PartWriter(index, e.size, 0, false, [], e.digest)))
  }

  function ResumeWriter(d: Disk, e: Entry, index: nat, offset: nat): Result<(Disk, PartWriter), string>
    requires e.File?
  {
    if offset > e.size then Err("unexpected offset")
    else if e.path in d.files then Err("destination exists")
    else if PartName(e.path) !in d.files then Err("part file is missing")
    else if |d.files[PartName(e.path)]| != offset then Err("unexpected offset")
    else Ok((d, PartWriter(index, e.size, offset, offset == e.size, d.files[PartName(e.path)][..offset], e.digest)))
  }

  function WriteRawChunk(d: Disk, e: Entry, w: PartWriter, chunk: Chunk): Result<(Disk, PartWriter), string> {
    var part := PartName(e.path);
    if !chunk.raw || |chunk.payload| != chunk.plainLen then Err("chunk is not raw")
    else if w.complete then Err("chunk for completed part file")
    else if chunk.index != w.index then Err("chunk file index mismatch")
    else if chunk.offset != w.offset then Err("unexpected offset")
    else if chunk.payload == [] && w.expectedLen != 0 then Err("empty chunk for non-empty file")
    else if w.offset + |chunk.payload| > w.expectedLen then Err("too large")
    else if chunk.last != (w.offset + |chunk.payload| == w.expectedLen) then Err("final marker mismatch")
    else if part !in d.files || |d.files[part]| < w.offset then Err("part file is missing")
    else
      var end := w.offset + |chunk.payload|;
      var tail := if end <= |d.files[part]| then d.files[part][end..] else [];
      Ok((d.(files := d.files[part := d.files[part][..w.offset] + chunk.payload + tail]),
          w.(offset := end, complete := chunk.last, absorbed := w.absorbed + chunk.payload)))
  }

  datatype Outcome =
    | StillPartial(writer: PartWriter)
    | Published
    | QuarantinedMismatch
    | Failed(error: string)

  function FinalizeVerified(hash: Hash, d: Disk, e: Entry, w: PartWriter): (Disk, Outcome) {
    if hash(w.absorbed) != w.expectedDigest then (Quarantine(d, PartName(e.path)), QuarantinedMismatch)
    else if !w.complete || w.offset != w.expectedLen then (d, Failed("cannot finalize incomplete transfer part"))
    else if e.path in d.files || PartName(e.path) !in d.files then (d, Failed("destination exists"))
    else (Publish(d, e.path), Published)
  }

  // ---------------------------------------------------------------- one chunk

  /** The checks made before the disk is touched. */
  function AdmitChunk(s: Session, chunk: Chunk): (r: Result<Position, string>)
    ensures r.Ok? ==> IsFileAt(s.manifest, r.value.index)
  {
    if chunk.id != s.manifest.id then Err("chunk transfer id mismatch")
    else if !chunk.raw then Err("runtime accepts only bounded raw chunks")
    else if |chunk.payload| != chunk.plainLen then Err("chunk payload length does not match plaintext length")
    else if chunk.plainLen > MAX_TRANSFER_CHUNK_SIZE then Err("chunk exceeds the runtime plaintext bound")
    else match NextFilePosition(s.manifest, s.checkpoint)
      case Err(error) => Err(error)
      case Ok(None) => Err("chunk arrived after every manifest file completed")
      case Ok(Some(p)) =>
        if chunk.index != p.index then Err("chunk file index is not the next manifest file")
        else if chunk.offset != p.offset then Err("chunk offset is not contiguous")
        else if chunk.offset + chunk.plainLen > s.manifest.entries[p.index].size
            then Err("chunk exceeds manifest file length")
        else if chunk.last != (chunk.offset + chunk.plainLen == s.manifest.entries[p.index].size) then
          Err("chunk final marker does not match manifest file length")
        else Ok(p)
  }

  /** The writer the chunk goes to: the open one, a fresh part, or the part the checkpoint points into. */
  function WriterFor(d: Disk, s: Session, p: Position): Result<(Disk, PartWriter), string>
    requires IsFileAt(s.manifest, p.index)
  {
    var e := s.manifest.entries[p.index];
    match s.writer
    case Some(w) => Ok((d, w))
    case None =>
      if s.checkpoint.Some? && s.checkpoint.value.fileIndex == p.index
      then ResumeWriter(d, e, p.index, p.offset)
      else CreateWriter(d, e, p.index)
  }

  /** Append the chunk and, when it is the last, verify and publish. */
  function StoreChunk(hash: Hash, d: Disk, s: Session, p: Position, chunk: Chunk): (Disk, Outcome)
    requires IsFileAt(s.manifest, p.index)
  {
    var e := s.manifest.entries[p.index];
    match WriterFor(d, s, p)
    case Err(error) => (d, Failed(error))
    case Ok((d1, w)) => AppendChunk(hash, d1, e, w, chunk)
  }

  function AppendChunk(hash: Hash, d: Disk, e: Entry, w: PartWriter, chunk: Chunk): (Disk, Outcome)
  {
    match WriteRawChunk(d, e, w, chunk)
    case Err(error) => (d, Failed(error))
    case Ok((d', w')) => if chunk.last then FinalizeVerified(hash, d', e, w') else (d', StillPartial(w'))
  }

  function Recorded(store: Store, s: Session): Store {
    store.(record := Some(ReceiveState(s.manifest, s.checkpoint, s.complete)))
  }

  /** The whole effect of one chunk on the receiver. */
  function TakeChunk(hash: Hash, store: Store, s: Session, chunk: Chunk): (Store, Session, Result<Checkpoint, string>) {
    match AdmitChunk(s, chunk)
    case Err(error) => (store, s, Err(error))
    case Ok(p) =>
      var (d, outcome) := StoreChunk(hash, store.disk, s, p, chunk);
      AfterStoring(store.(disk := d), s, p.index, chunk.offset + chunk.plainLen, outcome)
  }

  /** The session and its record once a chunk reaching `end` of entry `index` has been stored. */
  function AfterStoring(stored: Store, s: Session, index: nat, end: nat, outcome: Outcome): (Store, Session,
      Result<Checkpoint, string>)
    requires IsFileAt(s.manifest, index)
  {
    match outcome
    case Failed(error) => (stored, s.(writer := None), Err(error))
    case QuarantinedMismatch =>
      var s' := s.(writer := None, checkpoint := CheckpointBeforeEntry(s.manifest, index), complete := false);
      (Recorded(stored, s'), s', Err(DIGEST_MISMATCH))
    case StillPartial(w) =>
      var cp := CheckpointAfterChunk(s.manifest, index, end);
      var s' := s.(writer := Some(w), checkpoint := Some(cp));
      (Recorded(stored, s'), s', Ok(cp))
    case Published =>
      var cp := CheckpointAfterChunk(s.manifest, index, end);
      var s' := s.(writer := None, checkpoint := Some(cp));
      (Recorded(stored, s'), s', Ok(cp))
  }

  // ---------------------------------------------------------------- opening and closing

  /** A file lies where a directory of the manifest has to be created. */
  predicate DirectoryBlocked(m: Manifest, files: map<string, Bytes>) {
    exists e :: e in m.entries && e.Directory? && e.path in files
  }

  /**
   * Opening a transfer over whatever an earlier attempt left: read the record, create the directories, sweep, record.
   */
  function Prepare(hash: Hash, store: Store, m: Manifest): (Store, Result<Session, string>) {
    if store.rootExists && store.record.None? then (store, Err("receive state is unreadable"))
    else if store.rootExists && store.record.value.manifest != m then
      (store, Err("existing transfer destination belongs to a different manifest"))
    else
      var made := Store(true, store.disk, if store.rootExists then store.record else None);
      if DirectoryBlocked(m, store.disk.files) then (made, Err("destination exists"))
      else
        var (d, r) := Reconciled(hash, m, store.disk);
        match r
        case Err(error) => (made.(disk := d), Err(error))
        case Ok(cp) => OpenSwept(m, made.(disk := d), cp, store.rootExists && store.record.value.complete)
  }

  /** The checks after the sweep, and the new session. */
  function OpenSwept(m: Manifest, swept: Store, cp: Option<Checkpoint>,
                     wasComplete: bool): (r: (Store, Result<Session, string>))
    ensures r.0.disk == swept.disk
  {
    match NextFilePosition(m, cp)
    case Err(error) => (swept, Err(error))
    case Ok(next) =>
      var complete := wasComplete && next.None?;
      if complete && FirstFileFrom(m.entries, 0).None? && cp.Some? then (swept, Err(UNEXPECTED_FILES))
      else if complete && FirstFileFrom(m.entries, 0).Some? && (cp.None? || Ok(cp.value) != TerminalCheckpoint(m)) then
        (swept, Err(DESTINATION_CHANGED))
      else if cp.Some? && !ValidCheckpoint(m, cp.value, false) then (swept, Err("invalid checkpoint"))
      else
        var s := Session(m, cp, complete, None);
        (Recorded(swept, s), Ok(s))
  }

  /** The checkpoint offered back to the sender; a manifest of directories offers none. */
  function OfferedCheckpoint(s: Session): Option<Checkpoint> {
    if FirstFileFrom(s.manifest.entries, 0).None? then None else s.checkpoint
  }

  /** Taking the sender's claim that everything was sent. */
  function Finish(store: Store, s: Session, transferred: nat): (Store, Session, Result<Checkpoint, string>) {
    if transferred != s.manifest.totalBytes then (store, s, Err("complete byte count does not match manifest"))
    else match NextFilePosition(s.manifest, s.checkpoint)
      case Err(error) => (store, s, Err(error))
      case Ok(Some(_)) => (store, s, Err("complete arrived before all files were persisted"))
      case Ok(None) =>
        if s.writer.Some? then (store, s, Err("complete arrived with an open part writer"))
        else match TerminalCheckpoint(s.manifest)
          case Err(error) => (store, s, Err(error))
          case Ok(terminal) =>
            var s' := s.(checkpoint := Some(terminal), complete := true);
            (Recorded(store, s'), s', Ok(terminal))
  }

  // ---------------------------------------------------------------- checkpoint and disk in step

  /** The open writer is exactly the part on disk: same length, and the hasher has seen exactly its bytes. */
  predicate WriterInStep(m: Manifest, files: map<string, Bytes>, s: Session) {
    s.writer.Some? ==>
      && NextFilePosition(m, s.checkpoint).Ok?
      && NextFilePosition(m, s.checkpoint).value.Some?
      && var p := NextFilePosition(m, s.checkpoint).value.value;
         var w := s.writer.value;
         && IsFileAt(m, p.index)
         && s.checkpoint.Some? && s.checkpoint.value.fileIndex == p.index
         && PartAt(m, files, p.index) == Some(w.absorbed)
         && w == PartWriter(p.index, m.entries[p.index].size, p.offset, false, w.absorbed, m.entries[p.index].digest)
         && |w.absorbed| == p.offset
  }

  ghost predicate SessionInStep(hash: Hash, m: Manifest, store: Store, s: Session) {
    && s.manifest == m
    && InStep(hash, m, store.disk.files, s.checkpoint)
    && WriterInStep(m, store.disk.files, s)
    && (s.complete ==> NextFilePosition(m, s.checkpoint) == Ok(None))
  }

  /** What is already stored of the file at position `p`. */
  function PrefixAt(m: Manifest, files: map<string, Bytes>, p: Position): Bytes
    requires p.index < |m.entries|
  {
    match PartAt(m, files, p.index)
    case Some(content) => content
    case None => []
  }

  /** The writer refuses an empty chunk unless the whole file is empty. */
  predicate MovesForward(s: Session, p: Position, chunk: Chunk)
    requires IsFileAt(s.manifest, p.index)
  {
    chunk.payload != [] || s.manifest.entries[p.index].size == 0
  }

  /** An open writer for entry `e` whose part on disk is exactly what it has absorbed. */
  predicate Tracks(d: Disk, e: Entry, index: nat, w: PartWriter) {
    && e.File? && e.path !in d.files
    && PartName(e.path) in d.files && d.files[PartName(e.path)] == w.absorbed
    && w == PartWriter(index, e.size, |w.absorbed|, false, w.absorbed, e.digest)
  }

  /** In step, a part is created exactly when none exists and resumed exactly at its own length. */
  lemma WriterForTracks(hash: Hash, m: Manifest, store: Store, s: Session, p: Position)
    requires SessionInStep(hash, m, store, s) && NextFilePosition(m, s.checkpoint) == Ok(Some(p))
    ensures IsFileAt(m, p.index) && WriterFor(store.disk, s, p).Ok?
    ensures var (d, w) := WriterFor(store.disk, s, p).value;
            && Tracks(d, m.entries[p.index], p.index, w)
            && w.absorbed == PrefixAt(m, store.disk.files, p) && |w.absorbed| == p.offset
            && d.quarantined == store.disk.quarantined
            && OnlyNames(store.disk.files, d.files, m.entries[p.index].path)
  {
    OwnNamesApart(m.entries[p.index].path);
    NextPositionIsInFile(m, s.checkpoint);
  }

  /** Appending to a tracked part. */
  lemma AppendTracks(d: Disk, e: Entry, index: nat, w: PartWriter, chunk: Chunk)
    requires Tracks(d, e, index, w)
    requires chunk.raw && |chunk.payload| == chunk.plainLen && chunk.index == index && chunk.offset == w.offset
    requires chunk.offset + chunk.plainLen <= e.size && (chunk.last <==> chunk.offset + chunk.plainLen == e.size)
    ensures WriteRawChunk(d, e, w, chunk).Ok? <==> chunk.payload != [] || e.size == 0
    ensures WriteRawChunk(d, e, w, chunk).Ok? ==>
              var (d', w') := WriteRawChunk(d, e, w, chunk).value;
              var content := w.absorbed + chunk.payload;
              && d' == d.(files := d.files[PartName(e.path) := content])
              && w' == PartWriter(index, e.size, |content|, chunk.last, content, e.digest)
  {
    var part := d.files[PartName(e.path)];
    assert part[..w.offset] + chunk.payload + [] == w.absorbed + chunk.payload;
    assert w.offset + |chunk.payload| <= |part| ==> part[w.offset + |chunk.payload|..] == [];
  }

  /** The last chunk of a tracked part is published when it completes the declared content, and put aside otherwise. */
  lemma FinalizeTracked(hash: Hash, d: Disk, e: Entry, index: nat, content: Bytes)
    requires e.File? && e.path !in d.files && |content| == e.size
    requires PartName(e.path) in d.files && d.files[PartName(e.path)] == content
    ensures var (d', outcome) := FinalizeVerified(hash, d, e,
                                                  PartWriter(index, e.size, |content|, true, content, e.digest));
            && OnlyNames(d.files, d'.files, e.path) && PartName(e.path) !in d'.files
            && (if hash(content) == e.digest then
                  && outcome == Published && e.path in d'.files && d'.files[e.path] == content
                  && d'.quarantined == d.quarantined
                else
                  && outcome == QuarantinedMismatch && e.path !in d'.files
                  && d'.quarantined == d.quarantined + multiset{content})
  {
    OwnNamesApart(e.path);
  }

  /** Storing a chunk through a tracked writer. */
  lemma AppendOutcome(hash: Hash, m: Manifest, s: Session, d: Disk, p: Position, w: PartWriter, chunk: Chunk)
    requires s.manifest == m && IsFileAt(m, p.index) && Tracks(d, m.entries[p.index], p.index, w)
             && |w.absorbed| == p.offset
    requires chunk.raw && |chunk.payload| == chunk.plainLen && chunk.index == p.index && chunk.offset == p.offset
    requires chunk.offset + chunk.plainLen <= m.entries[p.index].size
    requires chunk.last <==> chunk.offset + chunk.plainLen == m.entries[p.index].size
    ensures var (d', outcome) := AppendChunk(hash, d, m.entries[p.index], w, chunk);
            && OnlyNames(d.files, d'.files, m.entries[p.index].path)
            && StoredAs(hash, m, s, p, chunk, w.absorbed + chunk.payload, d, d', outcome)
  {
    hide WriteRawChunk, FinalizeVerified;
    var e := m.entries[p.index];
    OwnNamesApart(e.path);
    AppendTracks(d, e, p.index, w, chunk);
    if WriteRawChunk(d, e, w, chunk).Ok? && chunk.last {
      FinalizeTracked(hash, WriteRawChunk(d, e, w, chunk).value.0, e, p.index, w.absorbed + chunk.payload);
    }
  }

  /** What an admitted chunk looks like. */
  lemma AdmittedChunk(s: Session, chunk: Chunk)
    requires AdmitChunk(s, chunk).Ok?
    ensures var p := AdmitChunk(s, chunk).value;
            && NextFilePosition(s.manifest, s.checkpoint) == Ok(Some(p)) && IsFileAt(s.manifest, p.index)
            && chunk.raw && |chunk.payload| == chunk.plainLen && chunk.index == p.index && chunk.offset == p.offset
            && chunk.offset + chunk.plainLen <= s.manifest.entries[p.index].size
            && (chunk.last <==> chunk.offset + chunk.plainLen == s.manifest.entries[p.index].size)
  {
    hide NextFilePosition;
    NextPositionIsInFile(s.manifest, s.checkpoint);
  }

  /** Such a chunk, within the size bound, is admitted. */
  lemma FittingChunkAdmitted(s: Session, p: Position, chunk: Chunk)
    requires NextFilePosition(s.manifest, s.checkpoint) == Ok(Some(p)) && IsFileAt(s.manifest, p.index)
    requires chunk.id == s.manifest.id && chunk.raw && |chunk.payload| == chunk.plainLen <= MAX_TRANSFER_CHUNK_SIZE
    requires chunk.index == p.index && chunk.offset == p.offset
             && chunk.offset + chunk.plainLen <= s.manifest.entries[p.index].size
    requires chunk.last <==> chunk.offset + chunk.plainLen == s.manifest.entries[p.index].size
    ensures AdmitChunk(s, chunk) == Ok(p)
  {
    hide NextFilePosition;
  }

  /**
   * Storing an admitted chunk in step: never a missing or clashing file, and the content is the prefix plus the
   * payload.
   */
  lemma StoreChunkOutcome(hash: Hash, m: Manifest, store: Store, s: Session, chunk: Chunk)
    requires Separate(m) && SessionInStep(hash, m, store, s) && AdmitChunk(s, chunk).Ok?
    ensures var p := AdmitChunk(s, chunk).value;
            && NextFilePosition(m, s.checkpoint) == Ok(Some(p)) && IsFileAt(m, p.index)
            && var (d, outcome) := StoreChunk(hash, store.disk, s, p, chunk);
               var content := PrefixAt(m, store.disk.files, p) + chunk.payload;
               && |content| == p.offset + chunk.plainLen
               && OthersKept(m, store.disk.files, d.files, p.index)
               && StoredAs(hash, m, s, p, chunk, content, store.disk, d, outcome)
  {
    AdmittedChunk(s, chunk);
    var p := AdmitChunk(s, chunk).value;
    hide WriterFor, AppendChunk, InStep, AdmitChunk, NextFilePosition, StoredAs, Separate, OthersKept, WriterInStep,
         Tracks, PrefixAt;
    WriterForTracks(hash, m, store, s, p);
    var (d, w) := WriterFor(store.disk, s, p).value;
    AppendOutcome(hash, m, s, d, p, w, chunk);
    StoredAsKeepsBefore(hash, m, s, p, chunk, w.absorbed + chunk.payload, d, store.disk,
                        AppendChunk(hash, d, m.entries[p.index], w, chunk));
    OnlyNamesCompose(store.disk.files, d.files, StoreChunk(hash, store.disk, s, p, chunk).0.files,
                     m.entries[p.index].path);
    OnlyNamesKeepsOthers(m, store.disk.files, StoreChunk(hash, store.disk, s, p, chunk).0.files, p.index);
  }

  lemma OnlyNamesCompose(a: map<string, Bytes>, b: map<string, Bytes>, c: map<string, Bytes>, path: string)
    requires OnlyNames(a, b, path) && OnlyNames(b, c, path)
    ensures OnlyNames(a, c, path)
  {
  }

  lemma StoredAsKeepsBefore(hash: Hash, m: Manifest, s: Session, p: Position, chunk: Chunk, content: Bytes,
                            before: Disk, before': Disk,
                            stored: (Disk, Outcome))
    requires IsFileAt(m, p.index) && s.manifest == m && before.quarantined == before'.quarantined
    requires StoredAs(hash, m, s, p, chunk, content, before, stored.0, stored.1)
    ensures StoredAs(hash, m, s, p, chunk, content, before', stored.0, stored.1)
  {
  }

  /** What each outcome of storing a chunk means for the file it belongs to. */
  predicate StoredAs(hash: Hash, m: Manifest, s: Session, p: Position, chunk: Chunk, content: Bytes, before: Disk,
                     after: Disk, outcome: Outcome)
    requires IsFileAt(m, p.index) && s.manifest == m
  {
    var final := FinalAt(m, after.files, p.index);
    var part := PartAt(m, after.files, p.index);
    var e := m.entries[p.index];
    && (outcome.Failed? <==> !MovesForward(s, p, chunk))
    && match outcome
       case Failed(_) => final.None? && after.quarantined == before.quarantined
       case StillPartial(w) =>
         && !chunk.last && final.None? && part == Some(content) && after.quarantined == before.quarantined
         && w == PartWriter(p.index, e.size, |content|, false, content, e.digest)
       case Published =>
         && chunk.last && final == Some(content) && part.None? && hash(content) == e.digest
         && after.quarantined == before.quarantined
       case QuarantinedMismatch =>
         && chunk.last && hash(content) != e.digest && final.None? && part.None?
         && after.quarantined == before.quarantined + multiset{content}
  }

  /** A chunk the session takes: admitted, moving forward, and if it ends the file, completing the declared content. */
  predicate Takes(hash: Hash, m: Manifest, store: Store, s: Session, chunk: Chunk)
    requires s.manifest == m
  {
    match AdmitChunk(s, chunk)
    case Err(_) => false
    case Ok(p) =>
      && IsFileAt(m, p.index) && MovesForward(s, p, chunk)
      && (chunk.last ==> hash(PrefixAt(m, store.disk.files, p) + chunk.payload) == m.entries[p.index].digest)
  }

  /** A chunk that is not admitted changes nothing. */
  lemma RefusedUnseen(hash: Hash, store: Store, s: Session, chunk: Chunk)
    requires AdmitChunk(s, chunk).Err?
    ensures var (store', s', r) := TakeChunk(hash, store, s, chunk);
              store' == store && s' == s && r == Err(AdmitChunk(s, chunk).error)
  {
    hide AdmitChunk;
  }

  /** An admitted chunk is stored, and the session follows. */
  lemma AdmittedStored(hash: Hash, store: Store, s: Session, chunk: Chunk)
    requires AdmitChunk(s, chunk).Ok?
    ensures var p := AdmitChunk(s, chunk).value;
            var (d, outcome) := StoreChunk(hash, store.disk, s, p, chunk);
            && IsFileAt(s.manifest, p.index)
            && TakeChunk(hash, store, s, chunk) == AfterStoring(store.(disk := d), s, p.index,
                                                                chunk.offset + chunk.plainLen, outcome)
            && TakeChunk(hash, store, s, chunk).0.disk == d
  {
    hide AdmitChunk, StoreChunk, CheckpointAfterChunk, CheckpointBeforeEntry;
  }

  /**
   * In step, a chunk is acknowledged with a checkpoint exactly when it is one the session takes, and the checkpoint
   * is the expected one.
   */
  lemma ChunkAcknowledgedIff(hash: Hash, m: Manifest, store: Store, s: Session, chunk: Chunk)
    requires Separate(m) && SessionInStep(hash, m, store, s)
    ensures var (store', s', r) := TakeChunk(hash, store, s, chunk);
            && (r.Ok? <==> Takes(hash, m, store, s, chunk))
            && (r.Ok? ==>
                  && chunk.index < |m.entries|
                  && r.value == CheckpointAfterChunk(m, chunk.index, chunk.offset + chunk.plainLen))
  {
    hide AdmitChunk, StoreChunk, TakeChunk, InStep, WriterInStep, Separate, NextFilePosition, CheckpointAfterChunk,
         CheckpointBeforeEntry,
         PrefixAt, OthersKept, MovesForward;
    match AdmitChunk(s, chunk)
    case Err(_) => RefusedUnseen(hash, store, s, chunk);
    case Ok(p) =>
      AdmittedStored(hash, store, s, chunk);
      AdmittedChunk(s, chunk);
      StoreChunkOutcome(hash, m, store, s, chunk);
      var (d, outcome) := StoreChunk(hash, store.disk, s, p, chunk);
  }

  lemma InStepAfterPartial(hash: Hash, m: Manifest, before: map<string, Bytes>, after: map<string, Bytes>,
                           cp: Option<Checkpoint>, n: nat)
    requires Separate(m) && InStep(hash, m, before, cp) && NextFilePosition(m, cp).value.Some?
    requires var p := NextFilePosition(m, cp).value.value;
             && OthersKept(m, before, after, p.index) && p.offset + n < m.entries[p.index].size
             && FinalAt(m, after, p.index).None? && PartAt(m, after, p.index).Some?
             && |PartAt(m, after, p.index).value| == p.offset + n
    ensures var p := NextFilePosition(m, cp).value.value;
            InStep(hash, m, after, Some(CheckpointAfterChunk(m, p.index, p.offset + n)))
  {
    var p := NextFilePosition(m, cp).value.value;
    ChunkAdvancesPosition(m, cp, n);
    OthersKeptKeepsPublished(hash, m, before, after, p.index, p.index);
  }

  lemma InStepAfterPublished(hash: Hash, m: Manifest, before: map<string, Bytes>, after: map<string, Bytes>,
                             cp: Option<Checkpoint>)
    requires Separate(m) && InStep(hash, m, before, cp) && NextFilePosition(m, cp).value.Some?
    requires var p := NextFilePosition(m, cp).value.value;
             OthersKept(m, before, after, p.index) && CleanlyPublished(hash, m, after, p.index)
    ensures var p := NextFilePosition(m, cp).value.value;
            p.index < |m.entries| && m.entries[p.index].File? &&
            InStep(hash, m, after, Some(CheckpointAfterChunk(m, p.index, m.entries[p.index].size)))
  {
    hide NextFilePosition, FirstFileFrom, Separate, CleanlyPublished, PublishedBefore, NothingLive, OpenAt, OthersKept;
    var p := NextFilePosition(m, cp).value.value;
    NextPositionIsInFile(m, cp);
    ChunkAdvancesPosition(m, cp, m.entries[p.index].size - p.offset);
    OthersKeptKeepsPublished(hash, m, before, after, p.index, p.index);
    OthersKeptKeepsNothing(m, before, after, p.index);
    InStepBehind(hash, m, after, p.index, CheckpointAfterChunk(m, p.index, m.entries[p.index].size));
  }

  /**
   * Published up to and including file `i` and nothing live behind it: in step with the checkpoint at the end of `i`.
   */
  lemma InStepBehind(hash: Hash, m: Manifest, files: map<string, Bytes>, i: nat, cp: Checkpoint)
    requires IsFileAt(m, i) && PublishedBefore(hash, m, files, i) && CleanlyPublished(hash, m, files, i)
    requires NothingLive(m, files, i + 1, |m.entries|)
    requires cp.fileIndex == i && NextFilePosition(m, Some(cp)) == Ok(StartOfFileFrom(m, i + 1))
    ensures InStep(hash, m, files, Some(cp))
  {
    hide NextFilePosition, FirstFileFrom, CleanlyPublished, PublishedBefore, NothingLive;
    FirstFileSkips(m, i + 1);
    match FirstFileFrom(m.entries, i + 1)
    case None => PublishedUpTo(hash, m, files, i, |m.entries|);
    case Some(j) =>
      PublishedUpTo(hash, m, files, i, j);
      NothingFrom(m, files, i + 1, j);
  }

  /** The first file from `start` on has only directories before it. */
  lemma {:induction false} FirstFileSkips(m: Manifest, start: nat)
    requires start <= |m.entries|
    ensures match FirstFileFrom(m.entries, start)
            case None => forall j :: start <= j < |m.entries| ==> m.entries[j].Directory?
            case Some(i) => start <= i && IsFileAt(m, i) && forall j :: start <= j < i ==> m.entries[j].Directory?
    decreases |m.entries| - start
  {
    if start < |m.entries| && m.entries[start].Directory? {
      FirstFileSkips(m, start + 1);
    }
  }

  lemma PublishedUpTo(hash: Hash, m: Manifest, files: map<string, Bytes>, i: nat, end: nat)
    requires IsFileAt(m, i) && i < end <= |m.entries| && PublishedBefore(hash, m, files, i)
             && CleanlyPublished(hash, m, files, i)
    requires forall j :: i < j < end ==> m.entries[j].Directory?
    ensures PublishedBefore(hash, m, files, end)
  {
  }

  lemma OthersKeptKeepsNothing(m: Manifest, before: map<string, Bytes>, after: map<string, Bytes>, i: nat)
    requires OthersKept(m, before, after, i) && NothingLive(m, before, i + 1, |m.entries|)
    ensures NothingLive(m, after, i + 1, |m.entries|)
  {
  }

  lemma NothingFrom(m: Manifest, files: map<string, Bytes>, start: nat, i: nat)
    requires start <= i && IsFileAt(m, i) && NothingLive(m, files, start, |m.entries|)
    ensures FinalAt(m, files, i).None? && PartAt(m, files, i).None? && NothingLive(m, files, i + 1, |m.entries|)
  {
  }

  lemma InStepAfterRollback(hash: Hash, m: Manifest, before: map<string, Bytes>, after: map<string, Bytes>,
                            cp: Option<Checkpoint>)
    requires Separate(m) && InStep(hash, m, before, cp) && NextFilePosition(m, cp).value.Some?
    requires var p := NextFilePosition(m, cp).value.value;
             OthersKept(m, before, after, p.index) && FinalAt(m, after, p.index).None?
             && PartAt(m, after, p.index).None?
    ensures var p := NextFilePosition(m, cp).value.value;
            p.index <= |m.entries| && InStep(hash, m, after, CheckpointBeforeEntry(m, p.index))
  {
    var p := NextFilePosition(m, cp).value.value;
    RollbackRestartsFile(m, p.index);
    OthersKeptKeepsPublished(hash, m, before, after, p.index, p.index);
  }

  /**
   * Checkpoint, hasher and disk stay in step across every acknowledged chunk and
   * across the rollback after a digest mismatch, and the record on disk follows.
   */
  lemma ChunkKeepsInStep(hash: Hash, m: Manifest, store: Store, s: Session, chunk: Chunk)
    requires Separate(m) && SessionInStep(hash, m, store, s)
    ensures var (store', s', r) := TakeChunk(hash, store, s, chunk);
            && (r.Err? && AdmitChunk(s, chunk).Err? ==> store' == store && s' == s)
            && (r.Ok? || (AdmitChunk(s, chunk).Ok? && MovesForward(s, AdmitChunk(s, chunk).value, chunk)) ==>
                  SessionInStep(hash, m, store', s') && store'.record
                      == Some(ReceiveState(m, s'.checkpoint, s'.complete)))
  {
    hide AdmitChunk, StoreChunk, TakeChunk, AfterStoring, SessionInStep, MovesForward, Separate;
    match AdmitChunk(s, chunk)
    case Err(_) => RefusedUnseen(hash, store, s, chunk);
    case Ok(p) =>
      if MovesForward(s, p, chunk) {
        StoredChunkKeepsInStep(hash, m, store, s, chunk);
      } else {
        StoreChunkOutcome(hash, m, store, s, chunk);
        StuckIsRefused(hash, m, store, s, chunk);
      }
  }

  lemma StuckIsRefused(hash: Hash, m: Manifest, store: Store, s: Session, chunk: Chunk)
    requires Separate(m) && SessionInStep(hash, m, store, s) && AdmitChunk(s, chunk).Ok?
             && !MovesForward(s, AdmitChunk(s, chunk).value, chunk)
    ensures TakeChunk(hash, store, s, chunk).2.Err?
  {
    hide AdmitChunk, InStep, WriterInStep, Separate, NextFilePosition, PrefixAt;
    ChunkAcknowledgedIff(hash, m, store, s, chunk);
  }

  /** The three outcomes of a chunk that moves forward. */
  lemma StoredChunkKeepsInStep(hash: Hash, m: Manifest, store: Store, s: Session, chunk: Chunk)
    requires Separate(m) && SessionInStep(hash, m, store, s)
    requires AdmitChunk(s, chunk).Ok? && MovesForward(s, AdmitChunk(s, chunk).value, chunk)
    ensures var (store', s', r) := TakeChunk(hash, store, s, chunk);
            SessionInStep(hash, m, store', s') && store'.record == Some(ReceiveState(m, s'.checkpoint, s'.complete))
  {
    hide AdmitChunk, StoreChunk, TakeChunk, InStep, Separate, NextFilePosition, CheckpointAfterChunk,
         CheckpointBeforeEntry,
         PrefixAt, OthersKept, MovesForward, CleanlyPublished, WriterInStep;
    AdmittedStored(hash, store, s, chunk);
    AdmittedChunk(s, chunk);
    StoreChunkOutcome(hash, m, store, s, chunk);
    var p := AdmitChunk(s, chunk).value;
    var (d, outcome) := StoreChunk(hash, store.disk, s, p, chunk);
    var content := PrefixAt(m, store.disk.files, p) + chunk.payload;
    match outcome
    case StillPartial(w) =>
      InStepAfterPartial(hash, m, store.disk.files, d.files, s.checkpoint, chunk.plainLen);
      SeparateIsWellFormed(m);
      WriterAfterPartial(m, d.files, s, chunk.plainLen, content, w);
    case Published =>
      PublishedCleanly(hash, m, d.files, p.index, content);
      InStepAfterPublished(hash, m, store.disk.files, d.files, s.checkpoint);
      NoWriterInStep(m, d.files, TakeChunk(hash, store, s, chunk).1);
    case QuarantinedMismatch =>
      InStepAfterRollback(hash, m, store.disk.files, d.files, s.checkpoint);
      NoWriterInStep(m, d.files, TakeChunk(hash, store, s, chunk).1);
  }

  lemma NoWriterInStep(m: Manifest, files: map<string, Bytes>, s: Session)
    requires s.writer.None?
    ensures WriterInStep(m, files, s)
  {
  }

  lemma PublishedCleanly(hash: Hash, m: Manifest, files: map<string, Bytes>, i: nat, content: Bytes)
    requires IsFileAt(m, i) && FinalAt(m, files, i) == Some(content) && PartAt(m, files, i).None?
    requires |content| == m.entries[i].size && hash(content) == m.entries[i].digest
    ensures CleanlyPublished(hash, m, files, i)
  {
  }

  lemma WriterAfterPartial(m: Manifest, files: map<string, Bytes>, s: Session, n: nat, content: Bytes, w: PartWriter)
    requires WellFormed(m) && s.manifest == m && NextFilePosition(m, s.checkpoint).Ok?
             && NextFilePosition(m, s.checkpoint).value.Some?
    requires var p := NextFilePosition(m, s.checkpoint).value.value;
             && IsFileAt(m, p.index) && |content| == p.offset + n < m.entries[p.index].size
             && PartAt(m, files, p.index) == Some(content)
             && w == PartWriter(p.index, m.entries[p.index].size, |content|, false, content, m.entries[p.index].digest)
    ensures var p := NextFilePosition(m, s.checkpoint).value.value;
            var cp := CheckpointAfterChunk(m, p.index, p.offset + n);
            WriterInStep(m, files, s.(writer := Some(w), checkpoint := Some(cp)))
            && NextFilePosition(m, Some(cp)) != Ok(None)
  {
    hide NextFilePosition, WellFormed;
    ChunkAdvancesPosition(m, s.checkpoint, n);
  }

  /**
   * An acknowledged chunk adds its bytes to one file, or publishes that file with its declared content; no other file
   * moves.
   */
  lemma ChunkEffect(hash: Hash, m: Manifest, store: Store, s: Session, chunk: Chunk)
    requires Separate(m) && SessionInStep(hash, m, store, s) && Takes(hash, m, store, s, chunk)
    ensures var p := AdmitChunk(s, chunk).value;
            var store' := TakeChunk(hash, store, s, chunk).0;
            var content := PrefixAt(m, store.disk.files, p) + chunk.payload;
            && IsFileAt(m, p.index)
            && OthersKept(m, store.disk.files, store'.disk.files, p.index)
            && store'.disk.quarantined == store.disk.quarantined
            && (if chunk.last then
                  && FinalAt(m, store'.disk.files, p.index) == Some(content)
                  && PartAt(m, store'.disk.files, p.index).None?
                else
                  && FinalAt(m, store'.disk.files, p.index).None?
                  && PartAt(m, store'.disk.files, p.index) == Some(content))
  {
    hide AdmitChunk, StoreChunk, TakeChunk, InStep, WriterInStep, Separate, NextFilePosition, OthersKept, PrefixAt,
         AfterStoring;
    AdmittedStored(hash, store, s, chunk);
    AdmittedChunk(s, chunk);
    StoreChunkOutcome(hash, m, store, s, chunk);
    var (d, outcome) := StoreChunk(hash, store.disk, s, AdmitChunk(s, chunk).value, chunk);
  }

  lemma AcknowledgedCheckpoint(hash: Hash, store: Store, s: Session, chunk: Chunk)
    requires TakeChunk(hash, store, s, chunk).2.Ok?
    ensures AdmitChunk(s, chunk).Ok?
    ensures var p := AdmitChunk(s, chunk).value;
            && IsFileAt(s.manifest, p.index) && NextFilePosition(s.manifest, s.checkpoint) == Ok(Some(p))
            && |chunk.payload| == chunk.plainLen && p.offset + chunk.plainLen <= s.manifest.entries[p.index].size
            && TakeChunk(hash, store, s, chunk).1.checkpoint
                 == Some(CheckpointAfterChunk(s.manifest, p.index, p.offset + chunk.plainLen))
  {
    hide AdmitChunk, StoreChunk, TakeChunk, NextFilePosition;
    if AdmitChunk(s, chunk).Err? {
      RefusedUnseen(hash, store, s, chunk);
    } else {
      AdmittedStored(hash, store, s, chunk);
      AdmittedChunk(s, chunk);
    }
  }

  /** A chunk never marks a transfer complete, and never unmarks one that has nothing left to receive. */
  lemma ChunkRecordsIncomplete(hash: Hash, store: Store, s: Session, chunk: Chunk)
    requires s.complete ==> NextFilePosition(s.manifest, s.checkpoint) == Ok(None)
    ensures var (store', s', r) := TakeChunk(hash, store, s, chunk);
            && store'.rootExists == store.rootExists && s'.manifest == s.manifest
            && s'.complete == s.complete
            && (s.complete ==> store' == store && s' == s && r.Err?)
            && (store'.record == store.record || store'.record
                == Some(ReceiveState(s.manifest, s'.checkpoint, s'.complete)))
  {
    hide AdmitChunk, StoreChunk, TakeChunk, NextFilePosition, CheckpointBeforeEntry, CheckpointAfterChunk;
    if AdmitChunk(s, chunk).Err? {
      RefusedUnseen(hash, store, s, chunk);
    } else {
      AdmittedStored(hash, store, s, chunk);
      AdmittedChunk(s, chunk);
    }
  }

  /** A chunk refused for its content rolls the session back before its file. */
  lemma MismatchRollsBack(hash: Hash, m: Manifest, store: Store, s: Session, chunk: Chunk)
    requires Separate(m) && SessionInStep(hash, m, store, s) && TakeChunk(hash, store, s, chunk).2.Err?
    requires AdmitChunk(s, chunk).Ok? && IsFileAt(m, AdmitChunk(s, chunk).value.index)
             && MovesForward(s, AdmitChunk(s, chunk).value, chunk)
    ensures TakeChunk(hash, store, s, chunk).1.checkpoint == CheckpointBeforeEntry(m, AdmitChunk(s, chunk).value.index)
  {
    hide StoreChunk, InStep, AdmitChunk, NextFilePosition, OthersKept, CheckpointBeforeEntry, WriterInStep;
    StoreChunkOutcome(hash, m, store, s, chunk);
    var p := AdmitChunk(s, chunk).value;
    var outcome := StoreChunk(hash, store.disk, s, p, chunk).1;
    assert !outcome.Failed?;
    assert outcome.QuarantinedMismatch?;
  }

  /** Every acknowledged chunk leaves strictly less work: no peer can keep the receiver busy with empty chunks. */
  lemma ChunkMakesProgress(hash: Hash, m: Manifest, store: Store, s: Session, chunk: Chunk)
    requires Separate(m) && SessionInStep(hash, m, store, s) && TakeChunk(hash, store, s, chunk).2.Ok?
    ensures var s' := TakeChunk(hash, store, s, chunk).1;
            NextFilePosition(m, s'.checkpoint).Ok? && WorkLeft(m, s'.checkpoint) < WorkLeft(m, s.checkpoint)
  {
    hide InStep, StoreChunk, TakeChunk, WorkLeft, NextFilePosition;
    ChunkAcknowledgedIff(hash, m, store, s, chunk);
    AcknowledgedCheckpoint(hash, store, s, chunk);
    ChunkReducesWork(m, s.checkpoint, chunk.plainLen);
  }

  /** Storing a chunk leaves every existing name alone except the part of its own file. */
  lemma StoreChunkTouchesOnlyItsPart(hash: Hash, d: Disk, s: Session, p: Position, chunk: Chunk, name: string)
    requires IsFileAt(s.manifest, p.index) && name in d.files && name != PartName(s.manifest.entries[p.index].path)
    ensures var d' := StoreChunk(hash, d, s, p, chunk).0;
            name in d'.files && d'.files[name] == d.files[name]
  {
    hide AppendChunk, WriterFor;
    WriterTouchesOnlyItsPart(d, s, p, name);
    if WriterFor(d, s, p).Ok? {
      var (d1, w) := WriterFor(d, s, p).value;
      AppendTouchesOnlyItsPart(hash, d1, s.manifest.entries[p.index], w, chunk, name);
    }
  }

  lemma WriterTouchesOnlyItsPart(d: Disk, s: Session, p: Position, name: string)
    requires IsFileAt(s.manifest, p.index) && name in d.files && name != PartName(s.manifest.entries[p.index].path)
    ensures WriterFor(d, s, p).Ok? ==>
              var d' := WriterFor(d, s, p).value.0; name in d'.files && d'.files[name] == d.files[name]
  {
  }

  lemma AppendTouchesOnlyItsPart(hash: Hash, d: Disk, e: Entry, w: PartWriter, chunk: Chunk, name: string)
    requires name in d.files && name != PartName(e.path)
    ensures var d' := AppendChunk(hash, d, e, w, chunk).0; name in d'.files && d'.files[name] == d.files[name]
  {
    hide WriteRawChunk;
    RawChunkNames(d, e, w, chunk, name);
  }

  /** Writing into a part changes that name and no other. */
  lemma RawChunkNames(d: Disk, e: Entry, w: PartWriter, chunk: Chunk, name: string)
    requires name != PartName(e.path)
    ensures WriteRawChunk(d, e, w, chunk).Ok? ==>
              var d' := WriteRawChunk(d, e, w, chunk).value.0;
              (name in d'.files <==> name in d.files) && (name in d.files ==> d'.files[name] == d.files[name])
  {
  }

  /** Whatever arrives, and in whatever state, no destination that exists is ever touched by a chunk. */
  lemma ChunkNeverTouchesAFinal(hash: Hash, m: Manifest, store: Store, s: Session, chunk: Chunk, i: nat)
    requires Separate(m) && s.manifest == m && IsFileAt(m, i) && FinalAt(m, store.disk.files, i).Some?
    ensures FinalAt(m, TakeChunk(hash, store, s, chunk).0.disk.files, i) == FinalAt(m, store.disk.files, i)
  {
    hide AdmitChunk, StoreChunk, TakeChunk, AfterStoring, Separate;
    if AdmitChunk(s, chunk).Err? {
      RefusedUnseen(hash, store, s, chunk);
    } else {
      var p := AdmitChunk(s, chunk).value;
      AdmittedStored(hash, store, s, chunk);
      OwnNamesApart(m.entries[i].path);
      if i != p.index {
        NamesApart(m, i, p.index);
      }
      StoreChunkTouchesOnlyItsPart(hash, store.disk, s, p, chunk, m.entries[i].path);
    }
  }

  // ---------------------------------------------------------------- opening

  /** The root is new or holds this manifest's record, and no file and directory want the same name. */
  ghost predicate MayOpen(m: Manifest, store: Store) {
    && (store.rootExists ==> store.record.Some? && store.record.value.manifest == m)
    && !DirectoryBlocked(m, store.disk.files)
    && NoPartDirectory(m)
  }

  /** After a sweep in step, none of the checks can fail. */
  lemma OpenSweptSucceeds(hash: Hash, m: Manifest, swept: Store, cp: Option<Checkpoint>, wasComplete: bool)
    requires WellFormed(m) && InStep(hash, m, swept.disk.files, cp)
    ensures var s := Session(m, cp, wasComplete && NextFilePosition(m, cp) == Ok(None), None);
            OpenSwept(m, swept, cp, wasComplete) == (Recorded(swept, s), Ok(s))
  {
    hide PublishedBefore, OpenAt, NothingLive;
    if NextFilePosition(m, cp) == Ok(None) && HasFile(m) {
      assert cp.Some?;
      NothingLeftIffTerminal(m, cp.value);
    }
  }

  /**
   * Opening succeeds exactly when the root is new or holds this manifest's record and nothing stands in the way of
   * its directories and parts; the checks after the sweep cannot fail.
   */
  lemma PrepareSucceedsIff(hash: Hash, store: Store, m: Manifest)
    requires Separate(m)
    ensures var (store', r) := Prepare(hash, store, m);
            && (r.Ok? <==> MayOpen(m, store))
            && (r.Ok? ==>
                  && SessionInStep(hash, m, store', r.value) && r.value.writer.None?
                  && store'.record == Some(ReceiveState(m, r.value.checkpoint, r.value.complete)) && store'.rootExists
                  && (r.value.complete <==> store.rootExists && store.record.value.complete
                                            && NextFilePosition(m, r.value.checkpoint) == Ok(None))
                  && (store'.disk, Ok(r.value.checkpoint)) == Reconciled(hash, m, store.disk))
            && (r.Err? ==> store'.rootExists && store'.record == (if store.rootExists then store.record else None))
  {
    hide InStep, Reconciled, OpenSwept, Separate;
    ReconcileEndsInStep(hash, m, store.disk);
    var (d, r) := Reconciled(hash, m, store.disk);
    if r.Ok? {
      var swept := Store(true, d, if store.rootExists then store.record else None);
      SeparateIsWellFormed(m);
      OpenSweptSucceeds(hash, m, swept, r.value, store.rootExists && store.record.Some? && store.record.value.complete);
    }
  }

  lemma SeparateIsWellFormed(m: Manifest)
    requires Separate(m)
    ensures WellFormed(m)
  {
  }

  lemma DirectoryApart(m: Manifest, e: Entry, i: nat)
    requires WellFormed(m) && NoPartDirectory(m) && e in m.entries && e.Directory? && IsFileAt(m, i)
    ensures e.path != m.entries[i].path && e.path != PartName(m.entries[i].path)
  {
    var j :| 0 <= j < |m.entries| && m.entries[j] == e;
    assert j != i && m.entries[j].path != m.entries[i].path;
    assert !DirectoryAt(m, PartName(m.entries[i].path));
  }

  /** The sweep gives a name to nothing but the destinations of files. */
  lemma {:induction false} SweepNames(hash: Hash, m: Manifest, d: Disk, i: nat, gap: bool, cp: Option<Checkpoint>,
                                      name: string)
    requires i <= |m.entries| && name !in d.files && forall k: nat :: IsFileAt(m, k) ==> m.entries[k].path != name
    ensures name !in Reconcile(hash, m, d, i, gap, cp).0.files
    decreases |m.entries| - i
  {
    hide Obstructed, SettleFile, Discard, AfterVerdict;
    if i < |m.entries| && m.entries[i].Directory? {
      SweepNames(hash, m, d, i + 1, gap, cp, name);
    } else if i < |m.entries| && !Obstructed(m, i) {
      assert IsFileAt(m, i);
      JudgingNames(hash, d, m.entries[i], name);
      if gap {
        SweepNames(hash, m, Discard(d, m.entries[i].path), i + 1, true, cp, name);
      } else {
        var (d', verdict) := SettleFile(hash, d, m.entries[i]);
        var (gap', cp') := AfterVerdict(m, i, verdict, cp);
        SweepNames(hash, m, d', i + 1, gap', cp', name);
      }
    }
  }

  /** A transfer that has opened can be opened again. */
  lemma PrepareKeepsOpen(hash: Hash, store: Store, m: Manifest)
    requires Separate(m) && MayOpen(m, store)
    ensures MayOpen(m, Prepare(hash, store, m).0)
  {
    PrepareSucceedsIff(hash, store, m);
    SeparateIsWellFormed(m);
    hide Reconcile, OpenSwept, Separate, NoPartDirectory, WellFormed, InStep;
    var d' := Reconciled(hash, m, store.disk).0;
    forall e | e in m.entries && e.Directory? ensures e.path !in d'.files {
      forall k: nat | IsFileAt(m, k) ensures m.entries[k].path != e.path {
        DirectoryApart(m, e, k);
      }
      SweepNames(hash, m, store.disk, 0, false, None, e.path);
    }
  }

  /** Storing a chunk gives a name to nothing but its own file and part. */
  lemma StoreChunkNames(hash: Hash, d: Disk, s: Session, p: Position, chunk: Chunk, name: string)
    requires IsFileAt(s.manifest, p.index) && name !in d.files
    requires name != s.manifest.entries[p.index].path && name != PartName(s.manifest.entries[p.index].path)
    ensures name !in StoreChunk(hash, d, s, p, chunk).0.files
  {
    hide WriteRawChunk;
    if WriterFor(d, s, p).Ok? {
      var (d1, w) := WriterFor(d, s, p).value;
      RawChunkNames(d1, s.manifest.entries[p.index], w, chunk, name);
    }
  }

  lemma TakeChunkKeepsOpen(hash: Hash, store: Store, s: Session, chunk: Chunk)
    requires WellFormed(s.manifest) && MayOpen(s.manifest, store)
    ensures MayOpen(s.manifest, TakeChunk(hash, store, s, chunk).0)
  {
    hide AdmitChunk, StoreChunk, TakeChunk, NoPartDirectory, WellFormed, NextFilePosition, CheckpointBeforeEntry,
         CheckpointAfterChunk;
    var m := s.manifest;
    if AdmitChunk(s, chunk).Err? {
      RefusedUnseen(hash, store, s, chunk);
    } else {
      var p := AdmitChunk(s, chunk).value;
      AdmittedStored(hash, store, s, chunk);
      forall e | e in m.entries && e.Directory? ensures e.path !in StoreChunk(hash, store.disk, s, p, chunk).0.files {
        DirectoryApart(m, e, p.index);
        StoreChunkNames(hash, store.disk, s, p, chunk, e.path);
      }
    }
  }

  /** What keeps a transfer from opening is still there after the refusal. */
  lemma RefusalKeepsClosed(hash: Hash, store: Store, m: Manifest)
    requires Separate(m) && Prepare(hash, store, m).1.Err?
    ensures !MayOpen(m, Prepare(hash, store, m).0)
  {
    PrepareSucceedsIff(hash, store, m);
    hide Reconciled, OpenSwept, Separate, NoPartDirectory, DirectoryBlocked;
    ReconcileEndsInStep(hash, m, store.disk);
  }

  /** All declared files are in place with the declared content. */
  ghost predicate Delivered(hash: Hash, m: Manifest, files: map<string, Bytes>) {
    PublishedBefore(hash, m, files, |m.entries|)
  }

  /** Opening a delivered transfer again leaves its disk alone and keeps its completion mark. */
  lemma PrepareKeepsDelivered(hash: Hash, store: Store, m: Manifest)
    requires Separate(m) && Delivered(hash, m, store.disk.files)
    ensures var (store', r) := Prepare(hash, store, m);
            && store'.disk == store.disk
            && (r.Ok? ==> NextFilePosition(m, r.value.checkpoint) == Ok(None)
                          && (store.rootExists && store.record.value.complete ==> r.value.complete))
  {
    hide Reconciled, OpenSwept, InStep, Separate;
    SeparateIsWellFormed(m);
    SweepLeavesPublishedAlone(hash, m, store.disk, 0, None);
    assert Reconciled(hash, m, store.disk).0 == store.disk by { SweptIs(hash, m, store.disk); }
    AllPublishedIsInStep(hash, m, store.disk.files);
    ReconcileFixesExactlyInStep(hash, m, store.disk, CheckpointBeforeEntry(m, |m.entries|));
    PrepareSucceedsIff(hash, store, m);
  }

  lemma SweptIs(hash: Hash, m: Manifest, d: Disk)
    ensures Reconciled(hash, m, d) == Reconcile(hash, m, d, 0, false, None)
  {
  }

  /** Nothing left to receive in step means everything was delivered. */
  lemma NothingLeftIsDelivered(hash: Hash, m: Manifest, store: Store, s: Session)
    requires SessionInStep(hash, m, store, s) && NextFilePosition(m, s.checkpoint) == Ok(None)
    ensures Delivered(hash, m, store.disk.files)
  {
  }

  /** A disk is in step with one checkpoint only, when all of it is published. */
  lemma InStepIsUnique(hash: Hash, m: Manifest, files: map<string, Bytes>, done: Option<Checkpoint>,
                       cp: Option<Checkpoint>)
    requires NextFilePosition(m, done) == Ok(None) && InStep(hash, m, files, done) && InStep(hash, m, files, cp)
    ensures NextFilePosition(m, cp) == Ok(None)
  {
  }

  /** The terminal acknowledgement is given exactly when the byte count is right and everything is delivered. */
  lemma FinishAcknowledgedIff(hash: Hash, m: Manifest, store: Store, s: Session, transferred: nat)
    requires Separate(m) && SessionInStep(hash, m, store, s)
    ensures var (store', s', r) := Finish(store, s, transferred);
            && (r.Ok? <==> transferred == m.totalBytes && Delivered(hash, m, store.disk.files))
            && (r.Ok? ==> r == TerminalCheckpoint(m) && store'.disk == store.disk
                          && store'.record == Some(ReceiveState(m, Some(r.value), true)))
            && (r.Err? ==> store' == store && s' == s)
  {
    TerminalIsValid(m);
    if Delivered(hash, m, store.disk.files) {
      AllPublishedIsInStep(hash, m, store.disk.files);
      InStepIsUnique(hash, m, store.disk.files, CheckpointBeforeEntry(m, |m.entries|), s.checkpoint);
    }
  }
}
