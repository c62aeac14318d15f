/**
 * The manifest of one transfer and the checkpoint arithmetic both peers use to
 * agree on the next byte: apps/desktop/src/file_transfer.rs:611-749.
 *
 * A checkpoint names an entry, an offset inside it, and the aggregate number of
 * file bytes up to that point.  Directories occupy manifest slots but no bytes.
 */
module TransferCheckpoint {
  import opened Wrappers

  type Digest = seq<byte>
  type TransferId = nat

  const MAX_TRANSFER_MANIFEST_ENTRIES: nat := 16 * 1024
  const MAX_TRANSFER_TOTAL_BYTES: nat := 1024 * 1024 * 1024 * 1024
  const MAX_TRANSFER_CHUNK_SIZE: nat := 4 * 1024 * 1024

  datatype Entry =
    | Directory(path: string)
    | File(path: string, size: nat, digest: Digest)

  datatype Manifest = Manifest(id: TransferId, from: DeviceId, to: Option<DeviceId>, entries: seq<Entry>,
                               totalBytes: nat)

  datatype Checkpoint = Checkpoint(id: TransferId, fileIndex: nat, offset: nat, transferred: nat)

  /** Where the next byte goes: an entry, an offset in it, and the bytes already persisted. */
  datatype Position = Position(index: nat, offset: nat, transferred: nat)

  /** Bytes of the file entries before `n`. */
  function BytesBefore(entries: seq<Entry>, n: nat): (total: nat)
    requires n <= |entries|
  {
    if n == 0 then 0
    else BytesBefore(entries, n - 1) + EntrySize(entries[n - 1])
  }

  function EntrySize(entry: Entry): nat {
    if entry.File? then entry.size else 0
  }

  /** What the wire decoder has checked of every manifest that reaches the runtime. */
  ghost predicate WellFormed(m: Manifest) {
    && 0 < |m.entries| <= MAX_TRANSFER_MANIFEST_ENTRIES
    && m.totalBytes == BytesBefore(m.entries, |m.entries|)
    && m.totalBytes <= MAX_TRANSFER_TOTAL_BYTES
    && (forall i, j :: 0 <= i < j < |m.entries| ==> m.entries[i].path != m.entries[j].path)
  }

  ghost predicate HasFile(m: Manifest) {
    exists i :: 0 <= i < |m.entries| && m.entries[i].File?
  }

  predicate IsFileAt(m: Manifest, i: nat) {
    i < |m.entries| && m.entries[i].File?
  }

  /** The first file entry at or after `start`. */
  function FirstFileFrom(entries: seq<Entry>, start: nat): (r: Option<nat>)
    ensures r.Some? ==> start <= r.value < |entries| && entries[r.value].File?
    ensures r.Some? ==> forall j :: start <= j < r.value ==> entries[j].Directory?
    ensures r.None? ==> forall j :: start <= j < |entries| ==> entries[j].Directory?
    decreases |entries| - start
  {
    if start >= |entries| then None
    else if entries[start].File? then Some(start)
    else FirstFileFrom(entries, start + 1)
  }

  /** The last file entry strictly before `end`. */
  function LastFileBefore(entries: seq<Entry>, end: nat): (r: Option<nat>)
    requires end <= |entries|
    ensures r.Some? ==> r.value < end && entries[r.value].File?
    ensures r.Some? ==> forall j :: r.value < j < end ==> entries[j].Directory?
    ensures r.None? ==> forall j :: 0 <= j < end ==> entries[j].Directory?
  {
    if end == 0 then None
    else if entries[end - 1].File? then Some(end - 1)
    else LastFileBefore(entries, end - 1)
  }

  predicate ValidCheckpoint(m: Manifest, cp: Checkpoint, allowDirectoryTerminal: bool) {
    && cp.id == m.id
    && cp.fileIndex < |m.entries|
    && (match m.entries[cp.fileIndex]
        case Directory(_) => allowDirectoryTerminal && cp.offset == 0
        case File(_, size, _) => cp.offset <= size)
    && cp.transferred == BytesBefore(m.entries, cp.fileIndex) + cp.offset
  }

  /** `Err` is the refusal of an invalid checkpoint, `Ok(None)` means nothing is left to receive. */
  function NextFilePosition(m: Manifest, cp: Option<Checkpoint>): Result<Option<Position>, string> {
    match cp
    case None => Ok(StartOfFileFrom(m, 0))
    case Some(c) =>
      if !ValidCheckpoint(m, c, false) then Err("invalid checkpoint")
      else if c.offset < m.entries[c.fileIndex].size then
        Ok(Some(Position(c.fileIndex, c.offset, c.transferred)))
      else Ok(StartOfFileFrom(m, c.fileIndex + 1))
  }

  function StartOfFileFrom(m: Manifest, start: nat): Option<Position> {
    match FirstFileFrom(m.entries, start)
    case None => None
    case Some(i) => Some(Position(i, 0, BytesBefore(m.entries, i)))
  }

  function TerminalCheckpoint(m: Manifest): Result<Checkpoint, string> {
    match LastFileBefore(m.entries, |m.entries|)
    case Some(i) => Ok(Checkpoint(m.id, i, m.entries[i].size, m.totalBytes))
    case None =>
      if |m.entries| == 0 then Err("cannot checkpoint an empty manifest")
      else Ok(Checkpoint(m.id, |m.entries| - 1, 0, m.totalBytes))
  }

  function CheckpointAfterChunk(m: Manifest, index: nat, offset: nat): Checkpoint
    requires index <= |m.entries|
  {
    Checkpoint(m.id, index, offset, BytesBefore(m.entries, index) + offset)
  }

  function CheckpointBeforeEntry(m: Manifest, index: nat): Option<Checkpoint>
    requires index <= |m.entries|
  {
    match LastFileBefore(m.entries, index)
    case None => None
    case Some(i) => Some(CheckpointAfterChunk(m, i, m.entries[i].size))
  }

  // ---------------------------------------------------------------- arithmetic

  lemma {:induction false} BytesBeforeMonotone(entries: seq<Entry>, i: nat, j: nat)
    requires i <= j <= |entries|
    ensures BytesBefore(entries, i) <= BytesBefore(entries, j)
    ensures (forall k :: i <= k < j ==> entries[k].Directory?) ==> BytesBefore(entries, i) == BytesBefore(entries, j)
  {
    if i < j {
      BytesBeforeMonotone(entries, i, j - 1);
    }
  }

  /** No checked addition or narrowing conversion of the checkpoint code can fail on a decoded manifest. */
  lemma CheckpointArithmeticFits(m: Manifest, index: nat, offset: nat)
    requires WellFormed(m) && IsFileAt(m, index) && offset <= m.entries[index].size
    ensures BytesBefore(m.entries, index) + offset <= m.totalBytes <= U64_MAX
    ensures index <= U32_MAX
  {
    BytesBeforeMonotone(m.entries, index + 1, |m.entries|);
  }

  // ---------------------------------------------------------------- agreement

  /** With at least one file, a valid checkpoint leaves nothing to receive exactly when it is the terminal one. */
  lemma NothingLeftIffTerminal(m: Manifest, cp: Checkpoint)
    requires WellFormed(m) && HasFile(m) && ValidCheckpoint(m, cp, false)
    ensures NextFilePosition(m, Some(cp)) == Ok(None) <==> Ok(cp) == TerminalCheckpoint(m)
  {
    var last := LastFileBefore(m.entries, |m.entries|);
    BytesBeforeMonotone(m.entries, last.value + 1, |m.entries|);
  }

  /** The terminal checkpoint is valid, and asking for the next position after it yields nothing. */
  lemma TerminalIsValid(m: Manifest)
    requires WellFormed(m)
    ensures TerminalCheckpoint(m).Ok?
    ensures ValidCheckpoint(m, TerminalCheckpoint(m).value, true)
    ensures HasFile(m) ==> NextFilePosition(m, Some(TerminalCheckpoint(m).value)) == Ok(None)
    ensures !HasFile(m) ==> NextFilePosition(m, None) == Ok(None)
  {
    match LastFileBefore(m.entries, |m.entries|)
    case Some(i) =>
      BytesBeforeMonotone(m.entries, i + 1, |m.entries|);
    case None =>
      BytesBeforeMonotone(m.entries, |m.entries| - 1, |m.entries|);
  }

  /** A checkpoint written after `n` more bytes at the next position moves the next position by exactly those bytes. */
  lemma ChunkAdvancesPosition(m: Manifest, cp: Option<Checkpoint>, n: nat)
    requires NextFilePosition(m, cp).Ok? && NextFilePosition(m, cp).value.Some?
    requires var p := NextFilePosition(m, cp).value.value;
               IsFileAt(m, p.index) && p.offset + n <= m.entries[p.index].size
    ensures var p := NextFilePosition(m, cp).value.value;
            var after := CheckpointAfterChunk(m, p.index, p.offset + n);
            && ValidCheckpoint(m, after, false)
            && after.transferred == p.transferred + n
            && NextFilePosition(m, Some(after)) ==
               Ok(if p.offset + n < m.entries[p.index].size
                  then Some(Position(p.index, p.offset + n, p.transferred + n))
                  else StartOfFileFrom(m, p.index + 1))
  {
  }

  /** The next position always lies in a file, strictly before its end unless the file is empty. */
  lemma NextPositionIsInFile(m: Manifest, cp: Option<Checkpoint>)
    requires NextFilePosition(m, cp).Ok? && NextFilePosition(m, cp).value.Some?
    ensures var p := NextFilePosition(m, cp).value.value;
            && IsFileAt(m, p.index)
            && p.transferred == BytesBefore(m.entries, p.index) + p.offset
            && (p.offset < m.entries[p.index].size || (p.offset == 0 && m.entries[p.index].size == 0))
            && (p.offset > 0 ==> cp.Some? && cp.value.fileIndex == p.index)
  {
  }

  lemma FirstFileSkipsDirectories(entries: seq<Entry>, start: nat, index: nat)
    requires start <= index <= |entries|
    requires forall j :: start <= j < index ==> entries[j].Directory?
    ensures FirstFileFrom(entries, start) == FirstFileFrom(entries, index)
    decreases index - start
  {
    if start < index {
      FirstFileSkipsDirectories(entries, start + 1, index);
    }
  }

  /** Where reception starts once every file before `index` is complete. */
  lemma PositionAfterPrefix(m: Manifest, index: nat)
    requires index <= |m.entries|
    ensures NextFilePosition(m, CheckpointBeforeEntry(m, index)) == Ok(StartOfFileFrom(m, index))
  {
    match LastFileBefore(m.entries, index)
    case None => FirstFileSkipsDirectories(m.entries, 0, index);
    case Some(i) => FirstFileSkipsDirectories(m.entries, i + 1, index);
  }

  /** Rolling back before a file makes that file, from its first byte, the next position. */
  lemma RollbackRestartsFile(m: Manifest, index: nat)
    requires IsFileAt(m, index)
    ensures NextFilePosition(m, CheckpointBeforeEntry(m, index)) ==
            Ok(Some(Position(index, 0, BytesBefore(m.entries, index))))
    ensures CheckpointBeforeEntry(m, index).Some? ==> CheckpointBeforeEntry(m, index).value.fileIndex < index
  {
    PositionAfterPrefix(m, index);
  }

  lemma LastFileIs(entries: seq<Entry>, end: nat, i: nat)
    requires i < end <= |entries| && entries[i].File?
    requires forall j :: i < j < end ==> entries[j].Directory?
    ensures LastFileBefore(entries, end) == Some(i)
    decreases end
  {
    if i < end - 1 {
      LastFileIs(entries, end - 1, i);
    }
  }

  /** The next position fixes the checkpoint, up to whether a part has been started. */
  lemma PositionFixesCheckpoint(m: Manifest, cp: Option<Checkpoint>)
    requires NextFilePosition(m, cp).Ok?
    ensures match NextFilePosition(m, cp).value
            case None => cp == CheckpointBeforeEntry(m, |m.entries|)
            case Some(p) =>
              p.index < |m.entries| &&
              cp == if cp.Some? && cp.value.fileIndex == p.index then Some(CheckpointAfterChunk(m, p.index, p.offset))
                    else CheckpointBeforeEntry(m, p.index)
  {
    if cp.Some? && cp.value.offset == m.entries[cp.value.fileIndex].size {
      var end := match NextFilePosition(m, cp).value case None => |m.entries| case Some(p) => p.index;
      LastFileIs(m.entries, end, cp.value.fileIndex);
    }
  }

  // ---------------------------------------------------------------- progress

  /** Work still owed from entry `i` on: one unit per file plus its bytes. */
  function WorkFrom(entries: seq<Entry>, i: nat): nat
    requires i <= |entries|
    decreases |entries| - i
  {
    if i == |entries| then 0
    else WorkFrom(entries, i + 1) + (if entries[i].File? then entries[i].size + 1 else 0)
  }

  /** Work owed after a checkpoint. */
  function WorkLeft(m: Manifest, cp: Option<Checkpoint>): nat
    requires NextFilePosition(m, cp).Ok?
  {
    match NextFilePosition(m, cp).value
    case None => 0
    case Some(p) => WorkFrom(m.entries, p.index + 1) + m.entries[p.index].size - p.offset + 1
  }

  lemma {:induction false} WorkSkipsDirectories(entries: seq<Entry>, i: nat, j: nat)
    requires i <= j <= |entries|
    requires forall k :: i <= k < j ==> entries[k].Directory?
    ensures WorkFrom(entries, i) == WorkFrom(entries, j)
    decreases j - i
  {
    if i < j {
      WorkSkipsDirectories(entries, i + 1, j);
    }
  }

  /** Every chunk the part writer takes, including the empty chunk of an empty file, leaves strictly less work. */
  lemma ChunkReducesWork(m: Manifest, cp: Option<Checkpoint>, n: nat)
    requires NextFilePosition(m, cp).Ok? && NextFilePosition(m, cp).value.Some?
    requires var p := NextFilePosition(m, cp).value.value;
             IsFileAt(m, p.index) && p.offset + n <= m.entries[p.index].size && (n > 0 || m.entries[p.index].size == 0)
    ensures var p := NextFilePosition(m, cp).value.value;
            var after := Some(CheckpointAfterChunk(m, p.index, p.offset + n));
            NextFilePosition(m, after).Ok? && WorkLeft(m, after) < WorkLeft(m, cp)
  {
    hide NextFilePosition, CheckpointAfterChunk, ValidCheckpoint, BytesBefore, FirstFileFrom, WorkFrom;
    var p := NextFilePosition(m, cp).value.value;
    NextPositionIsInFile(m, cp);
    ChunkAdvancesPosition(m, cp, n);
    if p.offset + n == m.entries[p.index].size {
      WorkFromNextFile(m, p.index + 1);
    }
  }

  /** Work from an entry on is the work from the next file on. */
  lemma WorkFromNextFile(m: Manifest, start: nat)
    requires start <= |m.entries|
    ensures match StartOfFileFrom(m, start)
            case None => WorkFrom(m.entries, start) == 0
            case Some(p) => p.index < |m.entries| && p.offset == 0
                            && WorkFrom(m.entries, start) == WorkFrom(m.entries, p.index + 1) + m.entries[p.index].size
                                 + 1
  {
    match FirstFileFrom(m.entries, start)
    case None => WorkSkipsDirectories(m.entries, start, |m.entries|);
    case Some(i) => WorkSkipsDirectories(m.entries, start, i);
  }
}
