/**
 * Transfers that go wrong, each as a run from the start of the protocol: a
 * directory in the way of a part, a crash before the first record, an empty file
 * behind the checkpoint, and a file that is another file's part.
 */
module TransferFailures {
  import opened Wrappers
  import opened TransferCheckpoint
  import opened ReceiveDisk
  import opened ReceiveSession
  import opened TransferProtocol
  import opened TransferLockstep

  // ---------------------------------------------------------------- a directory named like a part

  function PartDirectoryManifest(hash: Hash): Manifest {
    Manifest(0, 0, None, [File("a", 1, hash([1])), Directory("a.part")], 1)
  }

  /** A file `a` beside a directory `a.part` is refused at every attempt. */
  lemma PartDirectoryIsNeverDelivered(hash: Hash, n: nat)
    ensures var m := PartDirectoryManifest(hash);
            var sources := [Some([1]), None];
            && Separate(m) && SourcesIntact(hash, m, sources) && !NoPartDirectory(m)
            && Ticks(hash, m, Start(sources), n).queued
  {
    var m := PartDirectoryManifest(hash);
    var sources: seq<Option<Bytes>> := [Some([1]), None];
    assert BytesBefore(m.entries, 1) == 1;
    assert PartName("a") == "a.part" && m.entries[1] in m.entries;
    assert DirectoryAt(m, PartName(m.entries[0].path)) && IsFileAt(m, 0);
    assert forall i: nat, j: nat :: !Aliases(m, i, j) by {
      forall i: nat, j: nat ensures !Aliases(m, i, j) {
        OwnNamesApart("a");
      }
    }
    assert |RECEIVE_STATE_FILE| == 21;
    FirstAttemptDeliversIff(hash, m, sources);
    hide Ticks;
  }

  // ---------------------------------------------------------------- a crash before the first record

  /** A receiver that dies after creating the root and before recording anything never accepts the transfer again. */
  lemma RecordlessRootIsFatal(hash: Hash, m: Manifest, sources: seq<Option<Bytes>>, n: nat)
    requires Separate(m) && SourcesIntact(hash, m, sources)
    ensures var bare := Store(true, Disk(map[], multiset{}), None);
            var s := Run(hash, m, Start(sources), [SenderActs, CrashTearsDisk(bare)]);
            && s.store == bare && Rested(hash, m, s) && !MayOpen(m, s.store)
            && Ticks(hash, m, s, n).queued
  {
    var bare := Store(true, Disk(map[], multiset{}), None);
    var start := Start(sources);
    var offered := Step(hash, m, start, SenderActs);
    var s := Step(hash, m, offered, CrashTearsDisk(bare));
    TwoSteps(hash, m, start, SenderActs, CrashTearsDisk(bare));
    assert MayTearInto(hash, m, offered.store, bare);
    assert s == Disconnected(offered).(store := bare);
    hide Ticks, Separate, Run;
    NeverOpens(hash, m, s, n);
  }

  lemma TwoSteps(hash: Hash, m: Manifest, s: State, a: Action, b: Action)
    ensures Run(hash, m, s, [a, b]) == Step(hash, m, Step(hash, m, s, a), b)
  {
    hide Step;
    assert [a, b][..1] == [a] && [a][..0] == [];
    assert Run(hash, m, s, [a]) == Step(hash, m, Run(hash, m, s, []), a);
  }

  // ---------------------------------------------------------------- an empty file behind the checkpoint

  function EmptyFirstManifest(hash: Hash): Manifest {
    Manifest(0, 0, None, [File("a", 0, hash([])), File("b", 1, hash([1]))], 1)
  }

  /** The empty file is about to be sent. */
  function EmptyFileOpen(hash: Hash): State {
    var m := EmptyFirstManifest(hash);
    State(true, Streaming(None, 0, Some(Reader(0, false, []))), [Some([]), Some([1])], [], [],
          Store(true, Disk(map[], multiset{}), Some(ReceiveState(m, None, false))),
              Receiving(Session(m, None, false, None)))
  }

  lemma EmptyFileOpened(hash: Hash)
    ensures var m := EmptyFirstManifest(hash);
            var start := Start([Some([]), Some([1])]);
            Tick(hash, m, Tick(hash, m, Tick(hash, m, Tick(hash, m, start)))) == EmptyFileOpen(hash)
  {
    var m := EmptyFirstManifest(hash);
    var start := Start([Some([]), Some([1])]);
    NewRootOpens(hash, m);
    hide Prepare;
    var s4 := EmptyFileOpen(hash);
    var s2 := s4.(sender := Offering, toSender := [Accept(None)]);
    var s3 := s2.(sender := Streaming(None, 0, None), toSender := []);
    assert Tick(hash, m, start) == start.(sender := Offering, toReceiver := [Offer(m)]);
    assert Tick(hash, m, Tick(hash, m, start)) == s2;
    assert Tick(hash, m, s2) == s3;
    assert Tick(hash, m, s3) == s4 by { assert start.sources[0].value[..0] == []; }
  }

  /** Six exchanges in: the receiver has published `a` and its checkpoint is on the way. */
  lemma EmptyFilePublished(hash: Hash)
    ensures var m := EmptyFirstManifest(hash);
            var cp := Checkpoint(0, 0, 0, 0);
            var t := Ticks(hash, m, Start([Some([]), Some([1])]), 6);
            && t.queued && t.sources == [Some([]), Some([1])]
            && t.store == Store(true, Disk(map["a" := []], multiset{}), Some(ReceiveState(m, Some(cp), false)))
  {
    hide TakeChunk, Ticks;
    var m := EmptyFirstManifest(hash);
    var cp := Checkpoint(0, 0, 0, 0);
    EmptyFileOpened(hash);
    EmptyChunkStored(hash);
    var s4 := EmptyFileOpen(hash);
    var s5 := s4.(sender := AwaitingCheckpoint(None, 0, Reader(0, true, []), cp),
                  toReceiver := [ChunkMessage(Chunk(0, 0, 0, 0, true, true, []))]);
    assert BytesBefore(m.entries, 0) == 0;
    assert Tick(hash, m, s4) == s5;
    assert Tick(hash, m, s5).store == Store(true, Disk(map["a" := []], multiset{}),
                                            Some(ReceiveState(m, Some(cp), false)));
    SixTicks(hash, m, Start([Some([]), Some([1])]));
  }

  lemma SixTicks(hash: Hash, m: Manifest, s: State)
    ensures Ticks(hash, m, s, 6) == Tick(hash, m, Tick(hash, m,
                                                       Tick(hash, m, Tick(hash, m, Tick(hash, m, Tick(hash, m, s))))))
  {
    hide Tick;
    FewTicks(hash, m, s);
    FewTicks(hash, m, Ticks(hash, m, s, 4));
    TicksCompose(hash, m, s, 4, 2);
  }

  /** Opening a new root finds nothing. */
  lemma NewRootOpens(hash: Hash, m: Manifest)
    requires |m.entries| == 2 && m.entries[0].File? && m.entries[1].File?
    ensures Prepare(hash, Store(false, Disk(map[], multiset{}), None), m) ==
            (Store(true, Disk(map[], multiset{}), Some(ReceiveState(m, None, false))),
             Ok(Session(m, None, false, None)))
  {
    var d := Disk(map[], multiset{});
    assert !Obstructed(m, 0) && !Obstructed(m, 1);
    assert Reconcile(hash, m, d, 1, true, None) == (d, Ok(None));
    assert Discard(d, m.entries[1].path) == d;
    assert Reconciled(hash, m, d) == (d, Ok(None));
    assert FirstFileFrom(m.entries, 0) == Some(0);
  }

  lemma EmptyChunkStored(hash: Hash)
    ensures var m := EmptyFirstManifest(hash);
            var bare := Store(true, Disk(map[], multiset{}), Some(ReceiveState(m, None, false)));
            var cp := Checkpoint(0, 0, 0, 0);
            TakeChunk(hash, bare, Session(m, None, false, None), Chunk(0, 0, 0, 0, true, true, [])) ==
            (Store(true, Disk(map["a" := []], multiset{}), Some(ReceiveState(m, Some(cp), false))),
             Session(m, Some(cp), false, None), Ok(cp))
  {
    var m := EmptyFirstManifest(hash);
    var d := Disk(map[], multiset{});
    var s := Session(m, None, false, None);
    var chunk := Chunk(0, 0, 0, 0, true, true, []);
    assert PartName("a") == "a.part";
    assert FirstFileFrom(m.entries, 0) == Some(0) && BytesBefore(m.entries, 0) == 0;
    assert AdmitChunk(s, chunk) == Ok(Position(0, 0, 0));
    var d1 := Disk(map["a.part" := []], multiset{});
    assert WriterFor(d, s, Position(0, 0, 0)) == Ok((d1, PartWriter(0, 0, 0, false, [], hash([]))));
    assert d1.files["a.part"][..0] + chunk.payload + [] == [];
    assert d1.files["a.part" := []] == d1.files;
    var w := PartWriter(0, 0, 0, true, [], hash([]));
    assert WriteRawChunk(d1, m.entries[0], PartWriter(0, 0, 0, false, [], hash([])), chunk) == Ok((d1, w));
    assert Publish(d1, "a") == Disk(map["a" := []], multiset{});
    assert StoreChunk(hash, d, s, Position(0, 0, 0), chunk) == (Disk(map["a" := []], multiset{}), Published);
  }

  /** What the lost connection leaves. */
  function AfterEmptyFile(hash: Hash): State {
    State(true, Resting, [Some([]), Some([1])], [], [],
          Store(true, Disk(map["a" := []], multiset{}),
                Some(ReceiveState(EmptyFirstManifest(hash), Some(Checkpoint(0, 0, 0, 0)), false))), Listening)
  }

  lemma AfterEmptyFileIsStuck(hash: Hash)
    ensures var m, s := EmptyFirstManifest(hash), AfterEmptyFile(hash);
            && Separate(m) && Rested(hash, m, s) && MayOpen(m, s.store)
            && ResumePoint(hash, m, s) == Some(Checkpoint(0, 0, 0, 0))
            && !NoFinishedEmptyFile(m, ResumePoint(hash, m, s))
  {
    var m, s := EmptyFirstManifest(hash), AfterEmptyFile(hash);
    SeparatePair(m, "a", "b");
    EmptyFileSwept(hash);
    hide Reconciled, Separate, NoPartDirectory;
    assert s.sources[0] == Some([]) && s.sources[1] == Some([1]);
    assert IsFileAt(m, 0) && m.entries[0].size == 0;
  }

  /**
   * An empty file first, the connection lost after its checkpoint: whatever is tried after that, the
   * transfer is refused at the empty file.
   */
  lemma EmptyFileIsNeverPassed(hash: Hash, n: nat)
    ensures var m := EmptyFirstManifest(hash);
            var s := Step(hash, m, Ticks(hash, m, Start([Some([]), Some([1])]), 6), Disconnect);
            && Separate(m) && Rested(hash, m, s) && ResumePoint(hash, m, s) == Some(Checkpoint(0, 0, 0, 0))
            && Ticks(hash, m, s, n).queued
  {
    var m := EmptyFirstManifest(hash);
    EmptyFilePublished(hash);
    AfterEmptyFileIsStuck(hash);
    hide Ticks, Separate, Rested, ResumePoint, MayOpen, NoFinishedEmptyFile;
    assert Step(hash, m, Ticks(hash, m, Start([Some([]), Some([1])]), 6), Disconnect) == AfterEmptyFile(hash);
    FinishedEmptyFileIsFatal(hash, m, AfterEmptyFile(hash), n);
  }

  lemma SeparatePair(m: Manifest, a: string, b: string)
    requires |m.entries| == 2 && m.entries[0].File? && m.entries[1].File? && m.entries[0].path == a
             && m.entries[1].path == b
    requires |a| == |b| == 1 && a != b && m.totalBytes == m.entries[0].size
             + m.entries[1].size <= MAX_TRANSFER_TOTAL_BYTES
    ensures Separate(m) && NoPartDirectory(m)
  {
    assert BytesBefore(m.entries, 1) == m.entries[0].size;
    forall i: nat, j: nat ensures !Aliases(m, i, j) {
      assert |PartName(a)| == 6 && |PartName(b)| == 6;
    }
    assert |RECEIVE_STATE_FILE| == 21;
  }

  lemma EmptyFileSwept(hash: Hash)
    ensures var m := EmptyFirstManifest(hash);
            var d := Disk(map["a" := []], multiset{});
            Reconciled(hash, m, d) == (d, Ok(Some(Checkpoint(0, 0, 0, 0))))
  {
    var m := EmptyFirstManifest(hash);
    var d := Disk(map["a" := []], multiset{});
    assert PartName("a") == "a.part" && PartName("b") == "b.part";
    assert !Obstructed(m, 0) && !Obstructed(m, 1);
    assert SettleFile(hash, d, m.entries[0]) == (d, Verified);
    assert SettleFile(hash, d, m.entries[1]) == (d, Broken);
    var cp := Some(Checkpoint(0, 0, 0, 0));
    assert BytesBefore(m.entries, 0) == 0;
    assert Reconcile(hash, m, d, 1, false, cp) == (d, Ok(cp));
  }

  // ---------------------------------------------------------------- a file that is another file's part

  /** An admissible manifest whose second file's part is named like the first file. */
  function LossyManifest(hash: Hash): Manifest {
    Manifest(0, 0, None, [File("a.part", 2, hash([1, 2])), File("a", 1, hash([3]))], 3)
  }

  const LOSSY_SOURCES: seq<Option<Bytes>> := [Some([1, 2]), Some([3])]

  function Half(): Checkpoint {
    Checkpoint(0, 0, 2, 2)
  }

  function Whole(): Checkpoint {
    Checkpoint(0, 1, 1, 3)
  }

  /** The receiver's store with `files` live, `aside` moved aside and checkpoint `cp` on record. */
  function LossyStore(hash: Hash, files: map<string, Bytes>, aside: multiset<Bytes>, cp: Option<Checkpoint>): Store {
    Store(true, Disk(files, aside), Some(ReceiveState(LossyManifest(hash), cp, false)))
  }

  function LossySession(hash: Hash, cp: Option<Checkpoint>): Session {
    Session(LossyManifest(hash), cp, false, None)
  }

  function LossyChunk(index: nat): Chunk {
    if index == 0 then Chunk(0, 0, 0, 2, true, true, [1, 2]) else Chunk(0, 1, 0, 1, true, true, [3])
  }

  lemma LossySums(hash: Hash)
    ensures var m := LossyManifest(hash);
            && BytesBefore(m.entries, 0) == 0 && BytesBefore(m.entries, 1) == 2 && BytesBefore(m.entries, 2) == 3
            && FirstFileFrom(m.entries, 0) == Some(0) && FirstFileFrom(m.entries, 1) == Some(1)
            && FirstFileFrom(m.entries, 2) == None
            && PartName("a") == "a.part" && PartName("a.part") == "a.part.part"
            && TerminalCheckpoint(m) == Ok(Whole())
  {
  }

  /** The first file is published under the name of the second file's part. */
  lemma LossyFirstChunk(hash: Hash)
    ensures TakeChunk(hash, LossyStore(hash, map[], multiset{}, None), LossySession(hash, None), LossyChunk(0)) ==
            (LossyStore(hash, map["a.part" := [1, 2]], multiset{}, Some(Half())), LossySession(hash, Some(Half())),
             Ok(Half()))
  {
    LossySums(hash);
    var m := LossyManifest(hash);
    var d, s, p := Disk(map[], multiset{}), LossySession(hash, None), Position(0, 0, 0);
    assert AdmitChunk(s, LossyChunk(0)) == Ok(p);
    var d1 := Disk(map["a.part.part" := []], multiset{});
    assert WriterFor(d, s, p) == Ok((d1, PartWriter(0, 2, 0, false, [], hash([1, 2]))));
    assert d1.files["a.part.part"][..0] + LossyChunk(0).payload + [] == [1, 2];
    assert [] + LossyChunk(0).payload == [1, 2];
    var d2 := Disk(map["a.part.part" := [1, 2]], multiset{});
    assert d1.files["a.part.part" := [1, 2]] == d2.files;
    assert WriteRawChunk(d1, m.entries[0], PartWriter(0, 2, 0, false, [], hash([1, 2])), LossyChunk(0)) ==
           Ok((d2, PartWriter(0, 2, 2, true, [1, 2], hash([1, 2]))));
    assert Publish(d2, "a.part") == Disk(map["a.part" := [1, 2]], multiset{});
    assert StoreChunk(hash, d, s, p, LossyChunk(0)) == (Disk(map["a.part" := [1, 2]], multiset{}), Published);
  }

  /** The second file's part cannot be created beside it. */
  lemma LossySecondChunkRefused(hash: Hash)
    ensures var store := LossyStore(hash, map["a.part" := [1, 2]], multiset{}, Some(Half()));
            var (store', s', r) := TakeChunk(hash, store, LossySession(hash, Some(Half())), LossyChunk(1));
            store' == store && r.Err?
  {
    LossySums(hash);
    var s, p := LossySession(hash, Some(Half())), Position(1, 0, 2);
    assert AdmitChunk(s, LossyChunk(1)) == Ok(p);
    assert WriterFor(Disk(map["a.part" := [1, 2]], multiset{}), s, p).Err?;
  }

  /** The next sweep counts the first file as received and then moves it aside as the second file's part. */
  lemma LossyReopens(hash: Hash)
    ensures var m := LossyManifest(hash);
            Prepare(hash, LossyStore(hash, map["a.part" := [1, 2]], multiset{}, Some(Half())), m) ==
            (LossyStore(hash, map[], multiset{[1, 2]}, Some(Half())), Ok(LossySession(hash, Some(Half()))))
  {
    LossySums(hash);
    var m := LossyManifest(hash);
    var d, swept := Disk(map["a.part" := [1, 2]], multiset{}), Disk(map[], multiset{[1, 2]});
    assert !Obstructed(m, 0) && !Obstructed(m, 1);
    assert SettleFile(hash, d, m.entries[0]) == (d, Verified);
    assert Quarantine(d, "a.part") == swept;
    assert SettleFile(hash, d, m.entries[1]) == (swept, Broken);
    assert Reconcile(hash, m, d, 1, false, Some(Half())) == (swept, Ok(Some(Half())));
    assert Reconciled(hash, m, d) == (swept, Ok(Some(Half())));
  }

  lemma LossySecondChunk(hash: Hash)
    ensures TakeChunk(hash, LossyStore(hash, map[], multiset{[1, 2]}, Some(Half())), LossySession(hash, Some(Half())),
                      LossyChunk(1)) ==
            (LossyStore(hash, map["a" := [3]], multiset{[1, 2]}, Some(Whole())), LossySession(hash, Some(Whole())),
             Ok(Whole()))
  {
    LossySums(hash);
    var m := LossyManifest(hash);
    var d, s, p := Disk(map[], multiset{[1, 2]}), LossySession(hash, Some(Half())), Position(1, 0, 2);
    assert AdmitChunk(s, LossyChunk(1)) == Ok(p);
    var d1 := Disk(map["a.part" := []], multiset{[1, 2]});
    assert WriterFor(d, s, p) == Ok((d1, PartWriter(1, 1, 0, false, [], hash([3]))));
    assert d1.files["a.part"][..0] + LossyChunk(1).payload + [] == [3];
    assert [] + LossyChunk(1).payload == [3];
    var d2 := Disk(map["a.part" := [3]], multiset{[1, 2]});
    assert d1.files["a.part" := [3]] == d2.files;
    assert WriteRawChunk(d1, m.entries[1], PartWriter(1, 1, 0, false, [], hash([3])), LossyChunk(1)) ==
           Ok((d2, PartWriter(1, 1, 1, true, [3], hash([3]))));
    assert Publish(d2, "a") == Disk(map["a" := [3]], multiset{[1, 2]});
    assert StoreChunk(hash, d, s, p, LossyChunk(1)) == (Disk(map["a" := [3]], multiset{[1, 2]}), Published);
  }

  function LossyState(sender: SenderPhase, toReceiver: seq<Message>, toSender: seq<Message>, store: Store,
                      receiver: ReceiverPhase): State {
    State(true, sender, LOSSY_SOURCES, toReceiver, toSender, store, receiver)
  }

  /** After the first file: its checkpoint is on the way to the sender. */
  function LossyMiddle(hash: Hash): State {
    LossyState(AwaitingCheckpoint(None, 0, Reader(2, true, [1, 2]), Half()), [], [CheckpointMessage(Half())],
               LossyStore(hash, map["a.part" := [1, 2]], multiset{}, Some(Half())),
                   AwaitingAck(LossySession(hash, Some(Half())), Half()))
  }

  /** The first file is about to be sent. */
  function LossyOpen(hash: Hash): State {
    LossyState(Streaming(None, 0, Some(Reader(0, false, []))), [], [], LossyStore(hash, map[], multiset{}, None),
               Receiving(LossySession(hash, None)))
  }

  lemma LossyOpened(hash: Hash)
    ensures var m := LossyManifest(hash);
            Tick(hash, m, Tick(hash, m, Tick(hash, m, Tick(hash, m, Start(LOSSY_SOURCES))))) == LossyOpen(hash)
  {
    hide Prepare, TakeChunk;
    var m := LossyManifest(hash);
    var start := Start(LOSSY_SOURCES);
    LossySums(hash);
    NewRootOpens(hash, m);
    assert Tick(hash, m, start) == start.(sender := Offering, toReceiver := [Offer(m)]);
    var s2 := LossyOpen(hash).(sender := Offering, toSender := [Accept(None)]);
    assert Tick(hash, m, Tick(hash, m, start)) == s2;
    assert Tick(hash, m, Tick(hash, m, s2)) == LossyOpen(hash);
  }

  /** The first file's only chunk is on the way. */
  function LossySent(hash: Hash): State {
    LossyOpen(hash).(sender := AwaitingCheckpoint(None, 0, Reader(2, true, [1, 2]), Half()),
                     toReceiver := [ChunkMessage(LossyChunk(0))])
  }

  lemma LossyFirstFileSent(hash: Hash)
    ensures Tick(hash, LossyManifest(hash), LossyOpen(hash)) == LossySent(hash)
  {
    LossySums(hash);
    assert LOSSY_SOURCES[0].value[0..2] == [1, 2] && LOSSY_SOURCES[0].value[..0] + [1, 2] == [1, 2];
    assert [] + LOSSY_SOURCES[0].value[0..2] == [1, 2];
  }

  lemma LossyStarts(hash: Hash)
    ensures Ticks(hash, LossyManifest(hash), Start(LOSSY_SOURCES), 6) == LossyMiddle(hash)
  {
    hide Prepare, TakeChunk, Ticks;
    LossyOpened(hash);
    LossyFirstFileSent(hash);
    LossyFirstChunk(hash);
    assert Tick(hash, LossyManifest(hash), LossySent(hash)) == LossyMiddle(hash);
    SixTicks(hash, LossyManifest(hash), Start(LOSSY_SOURCES));
  }

  /** The second file's chunk is on the way while the first file sits under its part's name. */
  function LossyRefusal(hash: Hash): State {
    LossyState(AwaitingCheckpoint(None, 1, Reader(1, true, [3]), Whole()), [ChunkMessage(LossyChunk(1))], [],
               LossyStore(hash, map["a.part" := [1, 2]], multiset{}, Some(Half())),
                   Receiving(LossySession(hash, Some(Half()))))
  }

  lemma LossySecondFileSent(hash: Hash)
    ensures var m := LossyManifest(hash);
            Tick(hash, m, Tick(hash, m, Tick(hash, m, Tick(hash, m, Tick(hash, m, LossyMiddle(hash))))))
                == LossyRefusal(hash)
  {
    hide Prepare, TakeChunk;
    var m := LossyManifest(hash);
    LossySums(hash);
    var t5 := LossyRefusal(hash);
    var t2 := t5.(sender := Streaming(None, 0, Some(Reader(2, true, [1, 2]))), toReceiver := []);
    assert Tick(hash, m, Tick(hash, m, LossyMiddle(hash))) == t2;
    var t3 := t2.(sender := Streaming(None, 1, None));
    assert Tick(hash, m, t2) == t3;
    assert LOSSY_SOURCES[1].value[0..1] == [3] && LOSSY_SOURCES[1].value[..0] + [3] == [3];
    assert [] + LOSSY_SOURCES[1].value[0..1] == [3];
    assert Tick(hash, m, Tick(hash, m, t3)) == t5;
  }

  /** The first attempt ends with the first file published and the second refused. */
  lemma LossyFirstAttemptEnds(hash: Hash)
    ensures Ticks(hash, LossyManifest(hash), LossyMiddle(hash), 7) ==
            LossyState(Resting, [], [], LossyStore(hash, map["a.part" := [1, 2]], multiset{}, Some(Half())), Listening)
  {
    hide Prepare, TakeChunk, Ticks;
    var m := LossyManifest(hash);
    LossySecondFileSent(hash);
    LossySecondChunkRefused(hash);
    SixTicks(hash, m, LossyMiddle(hash));
    OneMoreTick(hash, m, LossyMiddle(hash), 6);
  }

  lemma OneMoreTick(hash: Hash, m: Manifest, s: State, n: nat)
    ensures Ticks(hash, m, s, n + 1) == Tick(hash, m, Ticks(hash, m, s, n))
  {
    hide Tick;
    FewTicks(hash, m, Ticks(hash, m, s, n));
    TicksCompose(hash, m, s, n, 1);
  }

  /** The second attempt resumes after the first file, which is gone by then. */
  lemma LossySecondAttemptOpens(hash: Hash)
    ensures Ticks(hash, LossyManifest(hash),
                  LossyState(Resting, [], [], LossyStore(hash, map["a.part" := [1, 2]], multiset{}, Some(Half())),
                             Listening), 6) ==
            LossyState(Streaming(Some(Half()), 1, Some(Reader(0, false, []))), [], [],
                       LossyStore(hash, map[], multiset{[1, 2]}, Some(Half())),
                           Receiving(LossySession(hash, Some(Half()))))
  {
    var m := LossyManifest(hash);
    LossySums(hash);
    LossyReopens(hash);
    hide Prepare, TakeChunk, Ticks;
    var s := LossyState(Resting, [], [], LossyStore(hash, map["a.part" := [1, 2]], multiset{}, Some(Half())),
                        Listening);
    var store, receiving := LossyStore(hash, map[], multiset{[1, 2]}, Some(Half())),
        Receiving(LossySession(hash, Some(Half())));
    var s2 := LossyState(Offering, [], [Accept(Some(Half()))], store, receiving);
    assert Tick(hash, m, Tick(hash, m, s)) == s2;
    var s4 := LossyState(Streaming(Some(Half()), 0, Some(Reader(2, true, [1, 2]))), [], [], store, receiving);
    assert LOSSY_SOURCES[0].value[..2] == [1, 2];
    assert Tick(hash, m, Tick(hash, m, s2)) == s4;
    var s5 := LossyState(Streaming(Some(Half()), 1, None), [], [], store, receiving);
    assert Tick(hash, m, s4) == s5;
    SixTicks(hash, m, s);
  }

  lemma LossySecondAttemptStreams(hash: Hash)
    ensures Ticks(hash, LossyManifest(hash),
                  LossyState(Streaming(Some(Half()), 1, Some(Reader(0, false, []))), [], [],
                             LossyStore(hash, map[], multiset{[1, 2]}, Some(Half())),
                                 Receiving(LossySession(hash, Some(Half())))), 6) ==
            LossyState(AwaitingTerminal, [Complete(3)], [],
                       LossyStore(hash, map["a" := [3]], multiset{[1, 2]}, Some(Whole())),
                           Receiving(LossySession(hash, Some(Whole()))))
  {
    var m := LossyManifest(hash);
    LossySums(hash);
    LossySecondChunk(hash);
    hide Prepare, TakeChunk, Ticks;
    var s := LossyState(Streaming(Some(Half()), 1, Some(Reader(0, false, []))), [], [],
                        LossyStore(hash, map[], multiset{[1, 2]}, Some(Half())),
                            Receiving(LossySession(hash, Some(Half()))));
    var s1 := s.(sender := AwaitingCheckpoint(Some(Half()), 1, Reader(1, true, [3]), Whole()),
                 toReceiver := [ChunkMessage(LossyChunk(1))]);
    assert LOSSY_SOURCES[1].value[0..1] == [3] && LOSSY_SOURCES[1].value[..0] + [3] == [3];
    assert [] + LOSSY_SOURCES[1].value[0..1] == [3];
    assert Tick(hash, m, s) == s1;
    var store, session := LossyStore(hash, map["a" := [3]], multiset{[1, 2]}, Some(Whole())),
        LossySession(hash, Some(Whole()));
    var s2 := LossyState(s1.sender, [], [CheckpointMessage(Whole())], store, AwaitingAck(session, Whole()));
    assert Tick(hash, m, s1) == s2;
    var s4 := LossyState(Streaming(Some(Half()), 1, Some(Reader(1, true, [3]))), [], [], store, Receiving(session));
    assert Tick(hash, m, Tick(hash, m, s2)) == s4;
    var s5 := LossyState(Streaming(Some(Half()), 2, None), [], [], store, Receiving(session));
    assert Tick(hash, m, s4) == s5;
    SixTicks(hash, m, s);
  }

  /** Both files sent, the completion claim on its way. */
  function LossyEnd(hash: Hash): State {
    LossyState(AwaitingTerminal, [Complete(3)], [],
               LossyStore(hash, map["a" := [3]], multiset{[1, 2]}, Some(Whole())),
                   Receiving(LossySession(hash, Some(Whole()))))
  }

  lemma LossyIsAcknowledged(hash: Hash)
    ensures var m := LossyManifest(hash);
            && !Ticks(hash, m, LossyEnd(hash), 2).queued
            && Ticks(hash, m, LossyEnd(hash), 2).store.disk == Disk(map["a" := [3]], multiset{[1, 2]})
            && Ticks(hash, m, LossyEnd(hash), 2).store.record == Some(ReceiveState(m, Some(Whole()), true))
  {
    hide Finish, Ticks;
    var m := LossyManifest(hash);
    LossyFinishes(hash);
    var s := LossyEnd(hash);
    var s1 := Tick(hash, m, s);
    assert s1.toSender == [Ack(Whole())];
    FewTicks(hash, m, s);
  }

  lemma LossyFinishes(hash: Hash)
    ensures var m := LossyManifest(hash);
            var s := LossyEnd(hash);
            var (store', session', r) := Finish(s.store, s.receiver.session, 3);
            r == Ok(Whole()) && store' == s.store.(record := Some(ReceiveState(m, Some(Whole()), true)))
            && session'.manifest == m
  {
    LossySums(hash);
  }

  lemma LossyRun(hash: Hash)
    ensures Ticks(hash, LossyManifest(hash), Start(LOSSY_SOURCES), 27)
            == Ticks(hash, LossyManifest(hash), LossyEnd(hash), 2)
  {
    LossyStarts(hash);
    LossyFirstAttemptEnds(hash);
    LossySecondAttemptOpens(hash);
    LossySecondAttemptStreams(hash);
    hide *;
    var m, s := LossyManifest(hash), Start(LOSSY_SOURCES);
    TicksCompose(hash, m, s, 6, 7);
    TicksCompose(hash, m, s, 13, 6);
    TicksCompose(hash, m, s, 19, 6);
    TicksCompose(hash, m, s, 25, 2);
    assert LossyEnd(hash) == Ticks(hash, m, s, 25) by { LossyEndIs(hash); }
  }

  lemma LossyEndIs(hash: Hash)
    ensures LossyEnd(hash) ==
            LossyState(AwaitingTerminal, [Complete(3)], [],
                       LossyStore(hash, map["a" := [3]], multiset{[1, 2]}, Some(Whole())),
                           Receiving(LossySession(hash, Some(Whole()))))
  {
  }

  lemma LossyManifestIs(hash: Hash)
    ensures var m := LossyManifest(hash);
            WellFormed(m) && NoReservedName(m) && Aliases(m, 1, 0) && NoPartDirectory(m)
            && SourcesIntact(hash, m, LOSSY_SOURCES)
  {
    LossySums(hash);
    var m := LossyManifest(hash);
    assert |RECEIVE_STATE_FILE| == 21;
    assert forall i: nat ::
             IsFileAt(m, i) ==> LOSSY_SOURCES[i].Some? && Matches(hash, m.entries[i], LOSSY_SOURCES[i].value);
  }

  /**
   * An undisturbed run, from the start, that ends with the transfer acknowledged, recorded as complete and
   * removed from the queue, and the first of its two files moved aside.
   */
  lemma AcknowledgedTransferLost(hash: Hash)
    ensures var m := LossyManifest(hash);
            var s := Ticks(hash, m, Start(LOSSY_SOURCES), 27);
            && WellFormed(m) && NoReservedName(m) && Aliases(m, 1, 0) && NoPartDirectory(m)
            && SourcesIntact(hash, m, LOSSY_SOURCES)
            && !s.queued && s.store.record == Some(ReceiveState(m, Some(Whole()), true))
            && FinalAt(m, s.store.disk.files, 0).None? && !Completed(hash, m, s.store)
  {
    var m := LossyManifest(hash);
    LossyManifestIs(hash);
    LossyRun(hash);
    LossyIsAcknowledged(hash);
    hide Ticks;
    assert IsFileAt(m, 0);
    assert !CleanlyPublished(hash, m, Ticks(hash, m, Start(LOSSY_SOURCES), 27).store.disk.files, 0);
  }
}
