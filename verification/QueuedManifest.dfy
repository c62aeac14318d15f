/**
 * The manifest offered for a queued transfer, joining the sender's walk
 * (apps/desktop/src/file_transfer.rs:521-558, 1681-1763) to the receiver's guarantees: whatever
 * the walk queues is a manifest the checkpoint arithmetic is sound for, and is
 * held whenever the receiver acknowledges it.
 */
module QueuedManifest {
  import opened Wrappers
  import opened TransferCheckpoint
  import opened ReceiveDisk
  import opened AcknowledgedFiles
  import opened AliasOrder
  import P = TransferProtocol
  import L = SourceListing
  import Q = QueuedContents
  import S = SourceTree
  import O = SourceOrder

  /** A path's bytes, one character each. */
  function Text(path: S.Path): (text: string)
    ensures |text| == |path|
  {
    seq(|path|, i requires 0 <= i < |path| => path[i] as char)
  }

  lemma TextInjective(a: S.Path, b: S.Path)
    ensures Text(a) == Text(b) <==> a == b
  {
    if Text(a) == Text(b) {
      forall i | 0 <= i < |a| ensures a[i] == b[i] {
        assert Text(a)[i] == Text(b)[i];
      }
    }
  }

  /** The name of a part is the name with the part's suffix. */
  lemma TextOfPart(path: S.Path)
    ensures Text(path + O.PART) == PartName(Text(path))
  {
    assert Text(O.PART) == ".part";
  }

  function EntryOf(e: S.Source): Entry {
    if e.isDir then Directory(Text(e.relative))
    else File(Text(e.relative), e.size, if e.digest.Some? then e.digest.value else [])
  }

  function EntriesOf(entries: seq<S.Source>): (r: seq<Entry>)
    ensures |r| == |entries| && forall i :: 0 <= i < |r| ==> r[i] == EntryOf(entries[i])
  {
    seq(|entries|, i requires 0 <= i < |entries| => EntryOf(entries[i]))
  }

  /** The manifest offered for a queue record: digests present, paths valid and distinct, the total as recorded. */
  function ManifestFromQueue(env: S.Env, id: TransferId, from: DeviceId, to: DeviceId, entries: seq<S.Source>,
                             total: nat)
    : (r: Result<Manifest, string>)
  {
    if exists e :: e in entries && !e.isDir && e.digest.None? then Err("queued file is missing its content digest")
    else if exists e :: e in entries && !env.portable(e.relative) then Err("invalid path")
    else if entries == [] then Err("empty manifest")
    else if |entries| > MAX_TRANSFER_MANIFEST_ENTRIES then Err("too large")
    else if exists i :: 0 <= i < |entries| && env.fold(entries[i].relative) in S.FoldedIn(env, entries[..i]) then
      Err("duplicate path")
    else
      var sum := BytesBefore(EntriesOf(entries), |entries|);
      if sum > MAX_TRANSFER_TOTAL_BYTES then Err("too large")
      else if sum != total then Err("queue total does not match manifest")
      else Ok(Manifest(id, from, Some(to), EntriesOf(entries), sum))
  }

  lemma {:induction false} TotalIsSum(entries: seq<S.Source>, n: nat)
    requires n <= |entries| && forall e :: e in entries ==> e.isDir ==> e.size == 0
    ensures BytesBefore(EntriesOf(entries), n) == S.SumSizes(entries[..n])
    decreases n
  {
    if n > 0 {
      TotalIsSum(entries, n - 1);
      assert entries[..n][..n - 1] == entries[..n - 1] && entries[n - 1] in entries;
    }
  }

  /** Paths that differ even up to case are different paths. */
  lemma PathsDiffer(env: S.Env, entries: seq<S.Source>, i: nat, j: nat)
    requires i < j < |entries| && env.fold(entries[j].relative) !in S.FoldedIn(env, entries[..j])
    ensures Text(entries[i].relative) != Text(entries[j].relative)
  {
    TextInjective(entries[i].relative, entries[j].relative);
    assert entries[..j][i] == entries[i];
    assert entries[i] in entries[..j];
    assert env.fold(entries[i].relative) in S.FoldedIn(env, entries[..j]);
  }

  /** Whatever is offered meets what the wire decoder checks. */
  lemma OfferedIsWellFormed(env: S.Env, id: TransferId, from: DeviceId, to: DeviceId, entries: seq<S.Source>,
                            total: nat)
    requires ManifestFromQueue(env, id, from, to, entries, total).Ok?
    ensures WellFormed(ManifestFromQueue(env, id, from, to, entries, total).value)
  {
    hide S.FoldedIn, Text;
    forall i, j | 0 <= i < j < |entries| ensures EntriesOf(entries)[i].path != EntriesOf(entries)[j].path {
      PathsDiffer(env, entries, i, j);
    }
  }

  /** The manifest offered for what `paths` queue. */
  function Offered(env: S.Env, lookup: S.Lookup, cfg: S.Config, paths: seq<S.Path>, id: TransferId,
                   from: DeviceId, to: DeviceId): Result<Manifest, string>
    requires S.Lawful(env)
  {
    match S.Build(env, lookup, cfg, paths)
    case Err(error) => Err(error)
    case Ok(w) => ManifestFromQueue(env, id, from, to, w.entries, w.total)
  }

  /** Whatever can be queued can be offered. */
  lemma QueuedIsOffered(env: S.Env, lookup: S.Lookup, cfg: S.Config, paths: seq<S.Path>, id: TransferId,
                        from: DeviceId, to: DeviceId)
    requires S.Lawful(env) && S.SoundLookup(lookup)
    ensures Offered(env, lookup, cfg, paths, id, from, to).Ok? <==> S.Build(env, lookup, cfg, paths).Ok?
  {
    hide S.Build, S.FoldedIn, S.DirsIn, S.AncestorsIn, BytesBefore;
    if S.Build(env, lookup, cfg, paths).Ok? {
      S.QueuedPassesPolicy(env, lookup, cfg, paths);
      var w := S.Build(env, lookup, cfg, paths).value;
      TotalIsSum(w.entries, |w.entries|);
      assert w.entries[..|w.entries|] == w.entries;
      forall e | e in w.entries ensures env.portable(e.relative) {
        var i :| 0 <= i < |w.entries| && w.entries[i] == e;
        assert S.EntryAllowed(env, w.entries, i);
      }
      forall i | 0 <= i < |w.entries| ensures env.fold(w.entries[i].relative) !in S.FoldedIn(env, w.entries[..i]) {
        assert S.EntryAllowed(env, w.entries, i);
      }
    }
  }

  /** Whatever the walk queues lists a file before one named like its part. */
  lemma OfferedIsOwnersFirst(env: S.Env, lookup: S.Lookup, cfg: S.Config, paths: seq<S.Path>, id: TransferId,
                             from: DeviceId, to: DeviceId)
    requires S.Lawful(env) && S.SoundLookup(lookup) && O.FoldsInOrder(env)
    requires Offered(env, lookup, cfg, paths, id, from, to).Ok?
    ensures OwnersFirst(Offered(env, lookup, cfg, paths, id, from, to).value)
  {
    hide S.Build, S.FoldedIn, BytesBefore;
    O.QueuedOwnersFirst(env, lookup, cfg, paths);
    var entries := S.Build(env, lookup, cfg, paths).value.entries;
    var m := Offered(env, lookup, cfg, paths, id, from, to).value;
    forall o: nat, t: nat | Aliases(m, o, t) ensures o < t {
      TextOfPart(entries[o].relative);
      TextInjective(entries[t].relative, entries[o].relative + O.PART);
    }
  }

  /**
   * From chosen paths to held files: whatever the sender queues, over every run of both peers, the receiver holds
   * every file with its queued content whenever it acknowledges.
   */
  lemma QueuedIsHeldWhenAcknowledged(env: S.Env, lookup: S.Lookup, cfg: S.Config, paths: seq<S.Path>, id: TransferId,
                                     from: DeviceId, to: DeviceId)
    requires S.Lawful(env) && S.SoundLookup(lookup) && O.FoldsInOrder(env)
    requires Offered(env, lookup, cfg, paths, id, from, to).Ok?
    requires NoReservedName(Offered(env, lookup, cfg, paths, id, from, to).value)
    ensures HeldWhenAcknowledged(env.hash, Offered(env, lookup, cfg, paths, id, from, to).value)
  {
    hide S.Build, ManifestFromQueue, HeldWhenAcknowledged;
    var m := Offered(env, lookup, cfg, paths, id, from, to).value;
    var w := S.Build(env, lookup, cfg, paths).value;
    OfferedIsWellFormed(env, id, from, to, w.entries, w.total);
    OfferedIsOwnersFirst(env, lookup, cfg, paths, id, from, to);
    OwnersFirstIsHeld(env.hash, m);
  }

  /** A file node is a file entry of the manifest offered. */
  lemma FileIsOffered(env: S.Env, lookup: S.Lookup, cfg: S.Config, paths: seq<S.Path>, id: TransferId, from: DeviceId,
                      to: DeviceId, e: S.Source) returns (i: nat)
    requires S.Lawful(env) && Offered(env, lookup, cfg, paths, id, from, to).Ok?
    requires e in S.Build(env, lookup, cfg, paths).value.entries && !e.isDir && e.digest.Some?
    ensures var m := Offered(env, lookup, cfg, paths, id, from, to).value;
            i < |m.entries| && m.entries[i] == File(Text(e.relative), e.size, e.digest.value)
  {
    hide S.Build, S.FoldedIn, BytesBefore, Text;
    var entries := S.Build(env, lookup, cfg, paths).value.entries;
    i :| 0 <= i < |entries| && entries[i] == e;
  }

  /**
   * From any file below a chosen path to the receiver's disk: over every run, when the receiver acknowledges the
   * transfer, the file's length and digest are those of what lies at its relative path.
   */
  lemma EveryChosenFileArrives(env: S.Env, lookup: S.Lookup, cfg: S.Config, paths: seq<S.Path>, id: TransferId,
                               from: DeviceId, to: DeviceId, p: S.Path, names: seq<S.Path>,
                               sources: seq<Option<Bytes>>, actions: seq<P.Action>, policyAllows: bool,
                               permitFree: bool, cp: Checkpoint)
    requires S.Lawful(env) && S.SoundLookup(lookup) && O.FoldsInOrder(env)
    requires Offered(env, lookup, cfg, paths, id, from, to).Ok?
    requires NoReservedName(Offered(env, lookup, cfg, paths, id, from, to).value)
    requires p in paths && lookup(p).Some?
    requires var found := L.NodeAt(lookup(p).value.node, names); found.Some? && found.value.File?
    requires var m := Offered(env, lookup, cfg, paths, id, from, to).value;
             Acknowledges(env.hash, m, P.Run(env.hash, m, P.Start(sources), actions), policyAllows, permitFree, cp)
    ensures var m := Offered(env, lookup, cfg, paths, id, from, to).value;
            var s := P.Run(env.hash, m, P.Start(sources), actions);
            var files := P.Step(env.hash, m, s, P.ReceiverActs(policyAllows, permitFree)).store.disk.files;
            var content := L.NodeAt(lookup(p).value.node, names).value.content;
            var name := Text(L.JoinAll(lookup(p).value.name, names));
            name in files && |files[name]| == |content| && env.hash(files[name]) == env.hash(content)
  {
    hide S.Build, S.SoundLookup, S.Lawful, O.FoldsInOrder, NoReservedName, ManifestFromQueue, Acknowledges, P.Run,
         P.Step,
         L.NodeAt, L.JoinAll, Text;
    var m := Offered(env, lookup, cfg, paths, id, from, to).value;
    var root := lookup(p).value;
    QueuedIsOffered(env, lookup, cfg, paths, id, from, to);
    Q.EveryNodeIsQueued(env, lookup, cfg, paths, p, names);
    var e := L.Described(env, L.NodeAt(root.node, names).value, L.JoinAll(root.absolute, names),
                         L.JoinAll(root.name, names));
    var i := FileIsOffered(env, lookup, cfg, paths, id, from, to, e);
    QueuedIsHeldWhenAcknowledged(env, lookup, cfg, paths, id, from, to);
    assert HeldAfter(env.hash, m, P.Run(env.hash, m, P.Start(sources), actions), policyAllows, permitFree);
    assert IsFileAt(m, i);
  }
}
