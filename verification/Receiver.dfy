/**
 * The receiver as the program runs it: the transfer directory and the session
 * are objects updated in place.  Each method is tied to the function of the old
 * state whose properties ReceiveDisk and ReceiveSession prove.
 * apps/desktop/src/file_transfer.rs:1126-1139, 1163-1352, 1531-1606, 1632-1661.
 */
module Receiver {
  import opened Wrappers
  import opened TransferCheckpoint
  import opened ReceiveDisk
  import opened ReceiveSession

  /** The directory of one transfer under the download folder. */
  class ReceiveRoot {
    const hash: Hash
    var present: bool
    var files: map<string, Bytes>
    var quarantined: multiset<Bytes>
    var record: Option<ReceiveState>

    constructor (hash: Hash)
      ensures this.hash == hash
      ensures Contents() == Store(false, Disk(map[], multiset{}), None)
    {
      this.hash := hash;
      present, files, quarantined, record := false, map[], multiset{}, None;
    }

    function Contents(): Store
      reads this
    {
      Store(present, Disk(files, quarantined), record)
    }

    /** Move the file aside; what it held is kept. */
    method QuarantineFile(name: string)
      requires name in files
      modifies this`files, this`quarantined
      ensures Disk(files, quarantined) == Quarantine(old(Disk(files, quarantined)), name)
    {
      quarantined := quarantined + multiset{files[name]};
      files := files - {name};
    }

    /** Judge one file while no gap has been seen. */
    method SettleEntry(e: Entry) returns (verdict: Verdict)
      requires e.File?
      modifies this`files, this`quarantined
      ensures (Disk(files, quarantined), verdict) == SettleFile(hash, old(Disk(files, quarantined)), e)
    {
      var part := PartName(e.path);
      if e.path in files {
        if |files[e.path]| == e.size && hash(files[e.path]) == e.digest {
          if part in files {
            QuarantineFile(part);
          }
          return Verified;
        }
        QuarantineFile(e.path);
      }
      if part !in files {
        return Broken;
      }
      if |files[part]| > e.size {
        QuarantineFile(part);
        return Broken;
      }
      if |files[part]| < e.size {
        return Partial(|files[part]|);
      }
      if hash(files[part]) != e.digest {
        QuarantineFile(part);
        return Broken;
      }
      var content := files[part];
      files := files - {part};
      files := files[e.path := content];
      return Verified;
    }

    /** One pass over the manifest recomputes the checkpoint from what is on disk. */
    method ReconcileReceiveCheckpoint(m: Manifest) returns (r: Result<Option<Checkpoint>, string>)
      modifies this`files, this`quarantined
      ensures (Disk(files, quarantined), r) == Reconciled(hash, m, old(Disk(files, quarantined)))
    {
      hide Obstructed;
      var checkpoint: Option<Checkpoint> := None;
      var incompleteSeen := false;
      for index := 0 to |m.entries|
        invariant Reconcile(hash, m, Disk(files, quarantined), index, incompleteSeen, checkpoint)
               == Reconciled(hash, m, old(Disk(files, quarantined)))
      {
        var entry := m.entries[index];
        if entry.Directory? {
          continue;
        }
        if Obstructed(m, index) {
          return Err(UNSAFE_FILE);
        }
        if incompleteSeen {
          if entry.path in files {
            QuarantineFile(entry.path);
          }
          if PartName(entry.path) in files {
            QuarantineFile(PartName(entry.path));
          }
          continue;
        }
        var verdict := SettleEntry(entry);
        match verdict {
          case Verified =>
            checkpoint := Some(CheckpointAfterChunk(m, index, entry.size));
          case Partial(n) =>
            checkpoint := Some(CheckpointAfterChunk(m, index, n));
            incompleteSeen := true;
          case Broken =>
            incompleteSeen := true;
        }
      }
      return Ok(checkpoint);
    }

    /** Create the manifest's directories; a file in the way of one is an error. */
    method CreateDirectories(m: Manifest) returns (blocked: bool)
      ensures blocked <==> DirectoryBlocked(m, files)
    {
      for index := 0 to |m.entries|
        invariant forall e :: e in m.entries[..index] && e.Directory? ==> e.path !in files
      {
        var e := m.entries[index];
        if e.Directory? && e.path in files {
          assert e in m.entries;
          return true;
        }
        assert m.entries[..index + 1] == m.entries[..index] + [e];
      }
      assert m.entries[..|m.entries|] == m.entries;
      return false;
    }

    /** Open the transfer over whatever an earlier attempt left on disk. */
    method PrepareReceiveSession(m: Manifest) returns (r: Result<InboundSession, string>)
      modifies this
      ensures r.Ok? <==> Prepare(hash, old(Contents()), m).1.Ok?
      ensures Contents() == Prepare(hash, old(Contents()), m).0
      ensures r.Ok? ==>
                && fresh(r.value) && r.value.root == this
                && r.value.View() == Prepare(hash, old(Contents()), m).1.value
    {
      hide OpenSwept, Reconciled, DirectoryBlocked;
      var complete := false;
      if present {
        if record.None? {
          return Err("receive state is unreadable");
        }
        if record.value.manifest != m {
          return Err("existing transfer destination belongs to a different manifest");
        }
        complete := record.value.complete;
      } else {
        present := true;
        record := None;
      }
      var blocked := CreateDirectories(m);
      if blocked {
        return Err("destination exists");
      }
      var sweep := ReconcileReceiveCheckpoint(m);
      if sweep.Err? {
        return Err(sweep.error);
      }
      r := OpenReconciled(m, sweep.value, complete);
    }

    /** The checks after the sweep; then the session is recorded and handed out. */
    method OpenReconciled(m: Manifest, reconciled: Option<Checkpoint>, wasComplete: bool)
        returns (r: Result<InboundSession, string>)
      modifies this`record
      ensures r.Ok? <==> OpenSwept(m, old(Contents()), reconciled, wasComplete).1.Ok?
      ensures Contents() == OpenSwept(m, old(Contents()), reconciled, wasComplete).0
      ensures r.Ok? ==> fresh(r.value) && r.value.root == this
                        && r.value.View() == OpenSwept(m, old(Contents()), reconciled, wasComplete).1.value
    {
      hide NextFilePosition, TerminalCheckpoint, ValidCheckpoint, FirstFileFrom;
      var complete := wasComplete;
      var next := NextFilePosition(m, reconciled);
      if next.Err? {
        return Err("invalid checkpoint");
      }
      if next.value.Some? {
        complete := false;
      }
      if complete {
        if FirstFileFrom(m.entries, 0).None? {
          if reconciled.Some? {
            return Err(UNEXPECTED_FILES);
          }
        } else if reconciled.None? || Ok(reconciled.value) != TerminalCheckpoint(m) {
          return Err(DESTINATION_CHANGED);
        }
      }
      if reconciled.Some? && !ValidCheckpoint(m, reconciled.value, false) {
        return Err("invalid checkpoint");
      }
      record := Some(ReceiveState(m, reconciled, complete));
      var session := new InboundSession(this, m, reconciled, complete);
      return Ok(session);
    }
  }

  /** One accepted offer. */
  class InboundSession {
    const root: ReceiveRoot
    const manifest: Manifest
    var checkpoint: Option<Checkpoint>
    var complete: bool
    var writer: Option<PartWriter>

    constructor (root: ReceiveRoot, m: Manifest, checkpoint: Option<Checkpoint>, complete: bool)
      ensures this.root == root && View() == Session(m, checkpoint, complete, None)
    {
      this.root, this.manifest := root, m;
      this.checkpoint, this.complete, this.writer := checkpoint, complete, None;
    }

    function View(): Session
      reads this
    {
      Session(manifest, checkpoint, complete, writer)
    }

    method PersistReceiveState()
      modifies root`record
      ensures root.record == Some(ReceiveState(manifest, checkpoint, complete))
    {
      root.record := Some(ReceiveState(manifest, checkpoint, complete));
    }

    /** Open, append, and on the last chunk verify and publish; the blocking half of one chunk. */
    method WriteToDisk(p: Position, chunk: Chunk) returns (outcome: Outcome)
      requires IsFileAt(manifest, p.index)
      modifies this`writer, root`files, root`quarantined
      ensures writer.None?
      ensures (Disk(root.files, root.quarantined), outcome) ==
              StoreChunk(root.hash, old(Disk(root.files, root.quarantined)), old(View()), p, chunk)
    {
      hide FinalizeVerified;
      var e := manifest.entries[p.index];
      var current := writer;
      writer := None;
      var d := Disk(root.files, root.quarantined);
      if current.None? {
        var resumeExistingPart := checkpoint.Some? && checkpoint.value.fileIndex == p.index;
        var opening := if resumeExistingPart then ResumeWriter(d, e, p.index, p.offset)
          else CreateWriter(d, e, p.index);
        if opening.Err? {
          return Failed(opening.error);
        }
        root.files := opening.value.0.files;
        d := opening.value.0;
        current := Some(opening.value.1);
      }
      var written := WriteRawChunk(d, e, current.value, chunk);
      if written.Err? {
        return Failed(written.error);
      }
      root.files := written.value.0.files;
      if !chunk.last {
        return StillPartial(written.value.1);
      }
      outcome := FinalizePart(e, written.value.1);
    }

    /** Check the digest of a finished part, then link it to its destination or put it aside. */
    method FinalizePart(e: Entry, w: PartWriter) returns (outcome: Outcome)
      modifies root`files, root`quarantined
      ensures (Disk(root.files, root.quarantined), outcome)
              == FinalizeVerified(root.hash, old(Disk(root.files, root.quarantined)), e, w)
    {
      if root.hash(w.absorbed) != w.expectedDigest {
        if PartName(e.path) in root.files {
          root.QuarantineFile(PartName(e.path));
        }
        return QuarantinedMismatch;
      }
      if !w.complete || w.offset != w.expectedLen {
        return Failed("cannot finalize incomplete transfer part");
      }
      if e.path in root.files || PartName(e.path) !in root.files {
        return Failed("destination exists");
      }
      var content := root.files[PartName(e.path)];
      root.files := root.files - {PartName(e.path)};
      root.files := root.files[e.path := content];
      return Published;
    }

    method ReceiveChunk(chunk: Chunk) returns (r: Result<Checkpoint, string>)
      modifies this, root`files, root`quarantined, root`record
      ensures (root.Contents(), View(), r) == TakeChunk(root.hash, old(root.Contents()), old(View()), chunk)
    {
      hide TakeChunk, AdmitChunk, StoreChunk, CheckpointBeforeEntry, CheckpointAfterChunk;
      var admitted := AdmitChunk(View(), chunk);
      if admitted.Ok? {
        AdmittedStored(root.hash, root.Contents(), View(), chunk);
      } else {
        RefusedUnseen(root.hash, root.Contents(), View(), chunk);
      }
      if admitted.Err? {
        return Err(admitted.error);
      }
      var p := admitted.value;
      var end := chunk.offset + chunk.plainLen;
      var outcome := WriteToDisk(p, chunk);
      match outcome {
        case Failed(error) =>
          return Err(error);
        case QuarantinedMismatch =>
          checkpoint := CheckpointBeforeEntry(manifest, p.index);
          complete := false;
          PersistReceiveState();
          return Err(DIGEST_MISMATCH);
        case StillPartial(w) =>
          writer := Some(w);
        case Published =>
      }
      checkpoint := Some(CheckpointAfterChunk(manifest, p.index, end));
      PersistReceiveState();
      return Ok(checkpoint.value);
    }

    /** Answer the sender's claim that everything was sent. */
    method AcceptCompletion(transferred: nat) returns (r: Result<Checkpoint, string>)
      modifies this, root`record
      ensures (root.Contents(), View(), r) == Finish(old(root.Contents()), old(View()), transferred)
    {
      if transferred != manifest.totalBytes {
        return Err("complete byte count does not match manifest");
      }
      var next := NextFilePosition(manifest, checkpoint);
      if next.Err? {
        return Err(next.error);
      }
      if next.value.Some? {
        return Err("complete arrived before all files were persisted");
      }
      if writer.Some? {
        return Err("complete arrived with an open part writer");
      }
      var terminal := TerminalCheckpoint(manifest);
      if terminal.Err? {
        return Err(terminal.error);
      }
      checkpoint, complete := Some(terminal.value), true;
      PersistReceiveState();
      return terminal;
    }
  }
}
