/**
 * One undisturbed connection: no timeouts, no disconnection, unchanged sources.
 * The sender's resume offsets and the receiver's next position then agree at
 * every exchange, and the transfer is acknowledged exactly when it can be opened
 * and no empty file lies at or before the checkpoint the receiver offers.  The
 * last exception is the sender's choice of the fresh-read path whenever the
 * resume offset is zero (apps/desktop/src/file_transfer.rs:227-245): a finished
 * empty file is sent again, and the receiver refuses it.
 */
module TransferLockstep {
  import opened Wrappers
  import opened TransferCheckpoint
  import opened ReceiveDisk
  import opened ReceiveSession
  import opened TransferProtocol

  /** The receiver answers whatever reached it, otherwise the sender moves. */
  function Tick(hash: Hash, m: Manifest, s: State): State {
    if s.toReceiver != [] then ReceiverStep(hash, m, s, true, true) else SenderStep(hash, m, s)
  }

  function Ticks(hash: Hash, m: Manifest, s: State, n: nat): State
    decreases n
  {
    if n == 0 then s else Ticks(hash, m, Tick(hash, m, s), n - 1)
  }

  lemma {:induction false} TicksCompose(hash: Hash, m: Manifest, s: State, a: nat, b: nat)
    ensures Ticks(hash, m, Ticks(hash, m, s, a), b) == Ticks(hash, m, s, a + b)
    decreases a
  {
    hide Tick;
    if a > 0 {
      TicksCompose(hash, m, Tick(hash, m, s), a - 1, b);
    }
  }

  lemma FewTicks(hash: Hash, m: Manifest, s: State)
    ensures var s1 := Tick(hash, m, s);
            var s2 := Tick(hash, m, s1);
            var s3 := Tick(hash, m, s2);
            var s4 := Tick(hash, m, s3);
            && Ticks(hash, m, s, 1) == s1 && Ticks(hash, m, s, 2) == s2
            && Ticks(hash, m, s, 3) == s3 && Ticks(hash, m, s, 4) == s4
  {
    hide Tick;
    var s1 := Tick(hash, m, s);
    var s2 := Tick(hash, m, s1);
    var s3 := Tick(hash, m, s2);
    assert Ticks(hash, m, s3, 1) == Tick(hash, m, s3) && Ticks(hash, m, s3, 0) == s3;
    assert Ticks(hash, m, s2, 2) == Tick(hash, m, s3) && Ticks(hash, m, s2, 1) == s3;
    assert Ticks(hash, m, s1, 3) == Tick(hash, m, s3) && Ticks(hash, m, s1, 2) == s3 && Ticks(hash, m, s1, 1) == s2;
  }

  /** How many offers the sender makes in `n` exchanges. */
  function Offers(hash: Hash, m: Manifest, s: State, n: nat): nat
    decreases n
  {
    if n == 0 then 0 else (if MakesOffer(s) then 1 else 0) + Offers(hash, m, Tick(hash, m, s), n - 1)
  }

  predicate MakesOffer(s: State) {
    s.queued && s.sender.Resting? && s.toReceiver == []
  }

  lemma {:induction false} OffersCompose(hash: Hash, m: Manifest, s: State, a: nat, b: nat)
    ensures Offers(hash, m, s, a + b) == Offers(hash, m, s, a) + Offers(hash, m, Ticks(hash, m, s, a), b)
    decreases a
  {
    hide Tick, MakesOffer;
    if a > 0 {
      OffersCompose(hash, m, Tick(hash, m, s), a - 1, b);
    }
  }

  /** Only the first of four exchanges may make an offer. */
  lemma FewOffers(hash: Hash, m: Manifest, s: State)
    requires var s1 := Tick(hash, m, s); var s2 := Tick(hash, m, s1); !MakesOffer(s1) && !MakesOffer(s2)
    ensures Offers(hash, m, s, 3) == if MakesOffer(s) then 1 else 0
    ensures !MakesOffer(Tick(hash, m, Tick(hash, m, Tick(hash, m, s)))) ==>
              Offers(hash, m, s, 4) == if MakesOffer(s) then 1 else 0
  {
    hide Tick, MakesOffer;
    var s1 := Tick(hash, m, s);
    var s2 := Tick(hash, m, s1);
    var s3 := Tick(hash, m, s2);
    assert Offers(hash, m, s3, 0) == 0 && Offers(hash, m, s2, 1) == 0 && Offers(hash, m, s1, 2) == 0;
    assert Offers(hash, m, s3, 1) == if MakesOffer(s3) then 1 else 0;
    assert Offers(hash, m, s2, 2) == Offers(hash, m, s3, 1) && Offers(hash, m, s1, 3) == Offers(hash, m, s2, 2);
  }

  /** A message on its way to the receiver is taken next. */
  lemma TickDelivers(hash: Hash, m: Manifest, s: State, message: Message)
    requires s.toReceiver == [message]
    ensures Tick(hash, m, s) == ReceiverReceives(hash, m, s.(toReceiver := []), message, true, true)
  {
    hide ReceiverReceives;
    assert s.toReceiver[1..] == [];
  }

  /** With nothing on its way to the receiver, a waiting sender takes its message. */
  lemma TickAnswers(hash: Hash, m: Manifest, s: State, message: Message)
    requires s.toReceiver == [] && s.toSender == [message]
             && (s.sender.Offering? || s.sender.AwaitingCheckpoint? || s.sender.AwaitingTerminal?)
    ensures Tick(hash, m, s) == SenderReceives(m, s.(toSender := []), message)
  {
    hide SenderReceives;
    assert s.toSender[1..] == [];
  }

  /** With nothing on its way, a streaming sender takes its reader one step. */
  lemma TickStreams(hash: Hash, m: Manifest, s: State)
    requires s.toReceiver == [] && s.sender.Streaming? && IsFileAt(m, s.sender.index)
    ensures Tick(hash, m, s) == StreamFile(hash, m, s, s.sender.resume, s.sender.index, s.sender.reader)
  {
    hide StreamFile;
  }

  /** The undisturbed schedule is one of the runs the safety results speak about. */
  lemma TickIsAStep(hash: Hash, m: Manifest, s: State)
    ensures Tick(hash, m, s) == Step(hash, m, s, SenderActs)
            || Tick(hash, m, s) == Step(hash, m, s, ReceiverActs(true, true))
  {
  }

  // ---------------------------------------------------------------- the undisturbed situation

  /** Every source still has its declared content. */
  ghost predicate SourcesIntact(hash: Hash, m: Manifest, sources: seq<Option<Bytes>>) {
    && |sources| == |m.entries|
    && forall i: nat :: IsFileAt(m, i) ==> sources[i].Some? && Matches(hash, m.entries[i], sources[i].value)
  }

  /** Between attempts, on an idle connection, with whatever the disk then holds. */
  ghost predicate Rested(hash: Hash, m: Manifest, s: State) {
    && s.queued && s.sender == Resting && s.receiver == Listening && s.toReceiver == [] && s.toSender == []
    && ReceiverSound(hash, m, s) && SourcesIntact(hash, m, s.sources)
  }

  /** The checkpoint the receiver will resume from. */
  function ResumePoint(hash: Hash, m: Manifest, s: State): Option<Checkpoint> {
    match Reconciled(hash, m, s.store.disk).1
    case Ok(cp) => cp
    case Err(_) => None
  }

  /** No empty file at or before the checkpoint. */
  ghost predicate NoFinishedEmptyFile(m: Manifest, cp: Option<Checkpoint>) {
    cp.Some? ==> forall i: nat :: i <= cp.value.fileIndex && IsFileAt(m, i) ==> m.entries[i].size > 0
  }

  /** The part the receiver holds, continued from the source, is the declared file. */
  ghost predicate PartHonest(hash: Hash, m: Manifest, sources: seq<Option<Bytes>>, files: map<string, Bytes>,
                             cp: Option<Checkpoint>)
    requires SourcesIntact(hash, m, sources) && NextFilePosition(m, cp).Ok?
  {
    match NextFilePosition(m, cp).value
    case None => true
    case Some(p) =>
      IsFileAt(m, p.index) && p.offset <= m.entries[p.index].size &&
      hash(PrefixAt(m, files, p) + sources[p.index].value[p.offset..]) == m.entries[p.index].digest
  }

  /** The receiver expects exactly what the sender will send from entry `i` on. */
  ghost predicate ExpectsFrom(m: Manifest, resume: Option<Checkpoint>, cp: Option<Checkpoint>, i: nat) {
    if resume.Some? && i <= resume.value.fileIndex then cp == resume
    else NextFilePosition(m, cp) == Ok(StartOfFileFrom(m, i))
  }

  /** The open reader stands where the receiver expects the next byte, or has nothing left to send. */
  ghost predicate ReaderAgrees(hash: Hash, m: Manifest, sources: seq<Option<Bytes>>, resume: Option<Checkpoint>,
                               cp: Option<Checkpoint>, i: nat, rd: Reader)
    requires SourcesIntact(hash, m, sources) && IsFileAt(m, i)
  {
    var content := sources[i].value;
    if rd.finished then rd.absorbed == content && ExpectsFrom(m, resume, cp, i + 1)
    else
      && rd.offset <= |content| && rd.absorbed == content[..rd.offset]
      && (rd.offset < |content| || |content| == 0) && (resume.Some? ==> resume.value.fileIndex <= i)
      && NextFilePosition(m, cp) == Ok(Some(Position(i, rd.offset, BytesBefore(m.entries, i) + rd.offset)))
  }

  /** Mid-stream, with nothing in flight. */
  ghost predicate Agreed(hash: Hash, m: Manifest, s: State) {
    && s.queued && s.sender.Streaming? && s.toReceiver == [] && s.toSender == [] && s.receiver.Receiving?
    && ReceiverSound(hash, m, s) && SourcesIntact(hash, m, s.sources) && MayOpen(m, s.store)
    && var Streaming(resume, i, reader) := s.sender;
       var cp := s.receiver.session.checkpoint;
       && i <= |m.entries|
       && (resume.Some? ==> ValidCheckpoint(m, resume.value, false)) && NoFinishedEmptyFile(m, resume)
       && (match reader
           case None => ExpectsFrom(m, resume, cp, i)
           case Some(rd) => IsFileAt(m, i) && ReaderAgrees(hash, m, s.sources, resume, cp, i, rd))
       && NextFilePosition(m, cp).Ok?
       && (PartHonest(hash, m, s.sources, s.store.disk.files, cp) ||
           (resume.Some? && NextFilePosition(m, cp).value.Some?
            && NextFilePosition(m, cp).value.value.index == resume.value.fileIndex))
  }

  ghost predicate Honest(hash: Hash, m: Manifest, s: State)
    requires Agreed(hash, m, s)
  {
    PartHonest(hash, m, s.sources, s.store.disk.files, s.receiver.session.checkpoint)
  }

  // ---------------------------------------------------------------- opening an attempt

  /** Offer, sweep, Accept: three exchanges bring an idle connection into agreement. */
  lemma AttemptOpens(hash: Hash, m: Manifest, s: State)
    requires Separate(m) && Rested(hash, m, s) && MayOpen(m, s.store)
    ensures var t := Ticks(hash, m, s, 3);
            var cp := ResumePoint(hash, m, s);
            && MayOpen(m, t.store) && NextFilePosition(m, cp).Ok?
            && t == s.(sender := Streaming(cp, 0, None), receiver := t.receiver, store := t.store)
            && t.receiver.Receiving? && t.receiver.session.checkpoint == cp
            && ReceiverSound(hash, m, t) && t.store.disk == Reconciled(hash, m, s.store.disk).0
            && Offers(hash, m, s, 3) == 1
  {
    hide Prepare, Reconciled, SessionInStep, Delivered, Ticks, MayOpen, Tick, Separate, OfferedCheckpoint;
    PrepareSucceedsIff(hash, s.store, m);
    PrepareSound(hash, m, s);
    PrepareKeepsOpen(hash, s.store, m);
    var s1 := s.(sender := Offering, toReceiver := [Offer(m)]);
    assert Tick(hash, m, s) == s1 by { RestedOffers(hash, m, s); }
    var (store, prepared) := Prepare(hash, s.store, m);
    var session := prepared.value;
    OfferMatchesSession(hash, m, store, session);
    var s2 := s.(sender := Offering, store := store, receiver := Receiving(session),
                 toSender := [Accept(session.checkpoint)]);
    TickDelivers(hash, m, s1, Offer(m));
    assert Tick(hash, m, s1) == s2;
    TickAnswers(hash, m, s2, Accept(session.checkpoint));
    FewTicks(hash, m, s);
    FewOffers(hash, m, s);
  }

  lemma RestedOffers(hash: Hash, m: Manifest, s: State)
    requires s.queued && s.sender == Resting && s.toReceiver == []
    ensures Tick(hash, m, s) == s.(sender := Offering, toReceiver := [Offer(m)])
  {
  }

  /** The checkpoint offered is the session's own, and valid. */
  lemma OfferMatchesSession(hash: Hash, m: Manifest, store: Store, session: Session)
    requires SessionInStep(hash, m, store, session)
    ensures OfferedCheckpoint(session) == session.checkpoint
    ensures NextFilePosition(m, session.checkpoint).Ok?
    ensures session.checkpoint.Some? ==> ValidCheckpoint(m, session.checkpoint.value, false)
  {
  }

  // ---------------------------------------------------------------- mid-stream

  lemma SkipDirectory(hash: Hash, m: Manifest, s: State)
    requires Separate(m) && Agreed(hash, m, s) && s.sender.index < |m.entries| && m.entries[s.sender.index].Directory?
    requires s.sender.reader.None?
    ensures var t := Tick(hash, m, s);
            && t == s.(sender := Streaming(s.sender.resume, s.sender.index + 1, None))
            && Agreed(hash, m, t)
  {
    hide SessionInStep, Delivered, PartHonest, NoFinishedEmptyFile;
  }

  lemma ExpectsFromNext(m: Manifest, resume: Option<Checkpoint>, cp: Option<Checkpoint>, i: nat)
    requires WellFormed(m) && IsFileAt(m, i) && ExpectsFrom(m, resume, cp, i) && NoFinishedEmptyFile(m, resume)
    requires resume.Some? ==> ValidCheckpoint(m, resume.value, false)
    requires ResumeOffset(m, resume, i) == m.entries[i].size && ResumeOffset(m, resume, i) != 0
    ensures ExpectsFrom(m, resume, cp, i + 1)
  {
  }

  lemma ExpectsHere(m: Manifest, resume: Option<Checkpoint>, cp: Option<Checkpoint>, i: nat)
    requires WellFormed(m) && IsFileAt(m, i) && ExpectsFrom(m, resume, cp, i) && NoFinishedEmptyFile(m, resume)
    requires resume.Some? ==> ValidCheckpoint(m, resume.value, false)
    requires var offset := ResumeOffset(m, resume, i); !(offset != 0 && offset == m.entries[i].size)
    ensures var offset := ResumeOffset(m, resume, i);
            && offset <= m.entries[i].size
            && (offset < m.entries[i].size || m.entries[i].size == 0) && (resume.Some? ==> resume.value.fileIndex <= i)
            && NextFilePosition(m, cp) == Ok(Some(Position(i, offset, BytesBefore(m.entries, i) + offset)))
  {
  }

  lemma OpenFile(hash: Hash, m: Manifest, s: State)
    requires Separate(m) && Agreed(hash, m, s) && IsFileAt(m, s.sender.index) && s.sender.reader.None?
    ensures var t := Tick(hash, m, s);
            && t.sender.Streaming? && t.sender.reader.Some?
            && t == s.(sender := Streaming(s.sender.resume, s.sender.index, t.sender.reader))
            && Agreed(hash, m, t)
  {
    hide SessionInStep, Delivered, PartHonest, NoFinishedEmptyFile, ExpectsFrom, NextFilePosition, Tick, Separate,
         MayOpen, ResumeOffset, BytesBefore;
    SeparateIsWellFormed(m);
    TickStreams(hash, m, s);
    var i := s.sender.index;
    var resume := s.sender.resume;
    var cp := s.receiver.session.checkpoint;
    var offset := ResumeOffset(m, resume, i);
    var content := s.sources[i].value;
    assert |content| == m.entries[i].size && content[..|content|] == content;
    if offset != 0 && offset == m.entries[i].size {
      ExpectsFromNext(m, resume, cp, i);
    } else {
      ExpectsHere(m, resume, cp, i);
    }
    AgreedWith(hash, m, s, Reader(offset, offset != 0 && offset == m.entries[i].size, content[..offset]));
  }

  /** Agreement with a reader that agrees. */
  lemma AgreedWith(hash: Hash, m: Manifest, s: State, rd: Reader)
    requires Agreed(hash, m, s) && IsFileAt(m, s.sender.index)
    requires ReaderAgrees(hash, m, s.sources, s.sender.resume, s.receiver.session.checkpoint, s.sender.index, rd)
    ensures Agreed(hash, m, s.(sender := Streaming(s.sender.resume, s.sender.index, Some(rd))))
  {
    hide SessionInStep, Delivered, PartHonest, NoFinishedEmptyFile, ExpectsFrom, ReaderAgrees, NextFilePosition,
         MayOpen;
  }

  lemma CloseFile(hash: Hash, m: Manifest, s: State)
    requires Separate(m) && Agreed(hash, m, s) && s.sender.reader.Some? && s.sender.reader.value.finished
    ensures var t := Tick(hash, m, s);
            && t == s.(sender := Streaming(s.sender.resume, s.sender.index + 1, None))
            && Agreed(hash, m, t)
  {
    hide SessionInStep, Delivered, PartHonest, NoFinishedEmptyFile, ExpectsFrom, NextFilePosition;
  }

  lemma CloseAttempt(hash: Hash, m: Manifest, s: State)
    requires Separate(m) && Agreed(hash, m, s) && s.sender.index == |m.entries|
    ensures !Ticks(hash, m, s, 3).queued && Offers(hash, m, s, 3) == 0
  {
    hide SessionInStep, Delivered, PartHonest, NoFinishedEmptyFile, Ticks, Finish, Tick, TerminalCheckpoint, Separate,
         MayOpen;
    var session := s.receiver.session;
    assert NextFilePosition(m, session.checkpoint) == Ok(None);
    NothingLeftIsDelivered(hash, m, s.store, session);
    FinishAcknowledgedIff(hash, m, s.store, session, m.totalBytes);
    var s1 := s.(sender := AwaitingTerminal, toReceiver := [Complete(m.totalBytes)]);
    assert Tick(hash, m, s) == s1 by { EndedCompletes(hash, m, s); }
    var (store, session', r) := Finish(s.store, session, m.totalBytes);
    TickDelivers(hash, m, s1, Complete(m.totalBytes));
    var s2 := s.(sender := AwaitingTerminal, toSender := [Ack(r.value)], store := store, receiver := Listening);
    assert Tick(hash, m, s1) == s2;
    TickAnswers(hash, m, s2, Ack(r.value));
    FewTicks(hash, m, s);
    FewOffers(hash, m, s);
  }

  lemma EndedCompletes(hash: Hash, m: Manifest, s: State)
    requires s.toReceiver == [] && s.sender.Streaming? && s.sender.index == |m.entries|
    ensures Tick(hash, m, s) == s.(sender := AwaitingTerminal, toReceiver := [Complete(m.totalBytes)])
  {
  }

  /** The chunk the sender produces next. */
  function OutgoingChunk(m: Manifest, s: State): Chunk
    requires s.sender.Streaming? && s.sender.reader.Some? && !s.sender.reader.value.finished
    requires IsFileAt(m, s.sender.index) && s.sender.index < |s.sources| && s.sources[s.sender.index].Some?
    requires |s.sources[s.sender.index].value| == m.entries[s.sender.index].size
             && s.sender.reader.value.offset <= m.entries[s.sender.index].size
  {
    NextChunk(m, s.sender.index, s.sources[s.sender.index], s.sender.reader.value).value.0.value
  }

  /** In agreement the receiver admits every chunk, and takes it unless it completes a dishonest part. */
  lemma OutgoingIsAdmitted(hash: Hash, m: Manifest, s: State)
    requires Separate(m) && Agreed(hash, m, s) && s.sender.reader.Some? && !s.sender.reader.value.finished
    ensures var i := s.sender.index;
            var rd := s.sender.reader.value;
            var chunk := OutgoingChunk(m, s);
            var cp := s.receiver.session.checkpoint;
            && AdmitChunk(s.receiver.session, chunk) == NextPositionOf(m, cp)
            && chunk.index == i && chunk.offset == rd.offset && |chunk.payload| == chunk.plainLen
            && (chunk.payload != [] || m.entries[i].size == 0)
            && chunk.payload == s.sources[i].value[rd.offset..rd.offset + chunk.plainLen]
            && chunk.offset + chunk.plainLen <= m.entries[i].size
            && (chunk.last <==> chunk.offset + chunk.plainLen == m.entries[i].size)
            && NextChunk(m, i, s.sources[i], rd) ==
               Ok((Some(chunk), Reader(chunk.offset + chunk.plainLen, chunk.last, rd.absorbed + chunk.payload)))
  {
    hide Agreed, Separate, AdmitChunk, NextFilePosition, NextChunk, SessionInStep, PartHonest, MayOpen, ReceiverSound,
         SourcesIntact;
    ReadingFacts(hash, m, s);
    NextChunkFits(m, s.sender.index, s.sources[s.sender.index], s.sender.reader.value);
    FittingChunkAdmitted(s.receiver.session, NextFilePosition(m, s.receiver.session.checkpoint).value.value,
                         OutgoingChunk(m, s));
  }

  /** The chunk read next from an unchanged source. */
  lemma NextChunkFits(m: Manifest, i: nat, source: Option<Bytes>, rd: Reader)
    requires IsFileAt(m, i) && source.Some? && |source.value| == m.entries[i].size && !rd.finished
    requires rd.offset < m.entries[i].size || (m.entries[i].size == 0 && rd.offset == 0)
    ensures NextChunk(m, i, source, rd).Ok? && NextChunk(m, i, source, rd).value.0.Some?
    ensures var chunk := NextChunk(m, i, source, rd).value.0.value;
            && chunk.id == m.id && chunk.raw && chunk.index == i && chunk.offset == rd.offset
            && |chunk.payload| == chunk.plainLen <= MAX_TRANSFER_CHUNK_SIZE
            && (chunk.payload != [] || m.entries[i].size == 0)
            && chunk.offset + chunk.plainLen <= m.entries[i].size
            && chunk.payload == source.value[rd.offset..rd.offset + chunk.plainLen]
            && (chunk.last <==> chunk.offset + chunk.plainLen == m.entries[i].size)
            && NextChunk(m, i, source, rd).value.1 == Reader(chunk.offset + chunk.plainLen, chunk.last,
                                                             rd.absorbed + chunk.payload)
  {
    assert rd.absorbed + [] == rd.absorbed;
  }

  function NextPositionOf(m: Manifest, cp: Option<Checkpoint>): Result<Position, string> {
    match NextFilePosition(m, cp)
    case Ok(Some(p)) => Ok(p)
    case _ => Err("nothing left")
  }

  /** The sender's reader once the chunk has been read. */
  function ReadPast(s: State, chunk: Chunk): Reader
    requires s.sender.Streaming? && s.sender.reader.Some?
  {
    Reader(chunk.offset + chunk.plainLen, chunk.last, s.sender.reader.value.absorbed + chunk.payload)
  }

  /** Chunk, checkpoint, acknowledgement: four exchanges when the receiver takes the chunk, and no offer among them. */
  lemma ChunkRoundTrip(hash: Hash, m: Manifest, s: State)
    requires Separate(m) && Agreed(hash, m, s) && s.sender.reader.Some? && !s.sender.reader.value.finished
    requires Takes(hash, m, s.store, s.receiver.session, OutgoingChunk(m, s))
    ensures var chunk := OutgoingChunk(m, s);
            var (store, session, r) := TakeChunk(hash, s.store, s.receiver.session, chunk);
            && Ticks(hash, m, s, 4) == s.(sender := Streaming(s.sender.resume, s.sender.index,
                                                              Some(ReadPast(s, chunk))),
                                          store := store, receiver := Receiving(session))
            && Offers(hash, m, s, 4) == 0
  {
    hide Agreed, Ticks, Offers, Tick, TakeChunk, Takes, Separate, OutgoingChunk;
    AgreedPlace(hash, m, s);
    ChunkExchange(hash, m, s);
    FewTicks(hash, m, s);
    FewOffers(hash, m, s);
  }

  lemma ChunkExchange(hash: Hash, m: Manifest, s: State)
    requires Separate(m) && Agreed(hash, m, s) && s.sender.reader.Some? && !s.sender.reader.value.finished
    requires Takes(hash, m, s.store, s.receiver.session, OutgoingChunk(m, s))
    ensures var chunk := OutgoingChunk(m, s);
            var (store, session, r) := TakeChunk(hash, s.store, s.receiver.session, chunk);
            var s1 := Tick(hash, m, s);
            var s2 := Tick(hash, m, s1);
            var s3 := Tick(hash, m, s2);
            && !MakesOffer(s1) && !MakesOffer(s2) && !MakesOffer(s3)
            && Tick(hash, m, s3) == s.(sender := Streaming(s.sender.resume, s.sender.index, Some(ReadPast(s, chunk))),
                                       store := store, receiver := Receiving(session))
  {
    hide Agreed, SessionInStep, Ticks, TakeChunk, AdmitChunk, Takes, Tick, Separate, OutgoingChunk,
         CheckpointAfterChunk, NextChunk,
         NextFilePosition, ReceiverSound, MayOpen, PartHonest;
    ReadingFacts(hash, m, s);
    OutgoingIsAdmitted(hash, m, s);
    var chunk := OutgoingChunk(m, s);
    var resume, i := s.sender.resume, s.sender.index;
    var rd := Reader(chunk.offset + chunk.plainLen, chunk.last, s.sender.reader.value.absorbed + chunk.payload);
    ChunkAcknowledgedIff(hash, m, s.store, s.receiver.session, chunk);
    var (store, session, r) := TakeChunk(hash, s.store, s.receiver.session, chunk);
    var expected := CheckpointAfterChunk(m, i, chunk.offset + chunk.plainLen);
    var s1 := s.(sender := AwaitingCheckpoint(resume, i, rd, expected), toReceiver := [ChunkMessage(chunk)]);
    TickStreams(hash, m, s);
    assert Tick(hash, m, s) == s1;
    TickDelivers(hash, m, s1, ChunkMessage(chunk));
    var s2 := s.(sender := s1.sender, toSender := [CheckpointMessage(expected)], store := store,
                 receiver := AwaitingAck(session, expected));
    assert Tick(hash, m, s1) == s2;
    TickAnswers(hash, m, s2, CheckpointMessage(expected));
    var s3 := s.(sender := Streaming(resume, i, Some(rd)), toReceiver := [Ack(expected)], store := store,
                 receiver := AwaitingAck(session, expected));
    assert Tick(hash, m, s2) == s3;
    TickDelivers(hash, m, s3, Ack(expected));
  }

  /** Three exchanges end the attempt when the receiver refuses the chunk. */
  lemma ChunkRefused(hash: Hash, m: Manifest, s: State, chunk: Chunk, rd: Reader)
    requires Separate(m) && s.sender.Streaming? && s.sender.reader.Some? && IsFileAt(m, s.sender.index)
    requires s.toReceiver == [] && s.toSender == [] && s.receiver.Receiving? && s.queued
    requires NextChunk(m, s.sender.index, SourceAt(s, s.sender.index), s.sender.reader.value) == Ok((Some(chunk), rd))
    requires TakeChunk(hash, s.store, s.receiver.session, chunk).2.Err?
    ensures Ticks(hash, m, s, 3) ==
            s.(sender := Resting, receiver := Listening, store := TakeChunk(hash, s.store, s.receiver.session, chunk).0)
    ensures Offers(hash, m, s, 3) == 0
  {
    hide Ticks, TakeChunk, AdmitChunk;
    var resume, i := s.sender.resume, s.sender.index;
    var (store, session, r) := TakeChunk(hash, s.store, s.receiver.session, chunk);
    var s1 := Tick(hash, m, s);
    assert s1 == s.(sender := s1.sender, toReceiver := [ChunkMessage(chunk)]) && s1.sender.AwaitingCheckpoint?;
    var s2 := Tick(hash, m, s1);
    assert s2 == s.(sender := s1.sender, toSender := [Cancel], store := store, receiver := Listening);
    var s3 := Tick(hash, m, s2);
    FewTicks(hash, m, s);
    FewOffers(hash, m, s);
  }

  // ---------------------------------------------------------------- honesty of the resumed part

  lemma PrefixGrows(m: Manifest, content: Bytes, prefix: Bytes, offset: nat, n: nat)
    requires offset + n <= |content|
    ensures (prefix + content[offset..offset + n]) + content[offset + n..] == prefix + content[offset..]
  {
    assert content[offset..] == content[offset..offset + n] + content[offset + n..];
  }

  /** A file nobody has started is honest: its whole content will come from the source. */
  lemma FreshFileIsHonest(hash: Hash, m: Manifest, sources: seq<Option<Bytes>>, files: map<string, Bytes>,
                          cp: Option<Checkpoint>)
    requires SourcesIntact(hash, m, sources) && NextFilePosition(m, cp).Ok?
    requires match NextFilePosition(m, cp).value
             case None => true
             case Some(p) => IsFileAt(m, p.index) && p.offset == 0 && PrefixAt(m, files, p) == []
    ensures PartHonest(hash, m, sources, files, cp)
  {
    if NextFilePosition(m, cp).value.Some? {
      var p := NextFilePosition(m, cp).value.value;
      var content := sources[p.index].value;
      assert [] + content[0..] == content;
    }
  }

  /** In step, only a checkpoint that points into a file leaves a part there. */
  lemma DishonestOnlyAtCheckpoint(hash: Hash, m: Manifest, s: State, cp: Option<Checkpoint>)
    requires SourcesIntact(hash, m, s.sources) && InStep(hash, m, s.store.disk.files, cp)
    requires !PartHonest(hash, m, s.sources, s.store.disk.files, cp)
    ensures cp.Some? && NextFilePosition(m, cp).value.Some?
            && NextFilePosition(m, cp).value.value.index == cp.value.fileIndex
  {
    NextPositionIsInFileIfAny(m, cp);
    if !(cp.Some? && NextFilePosition(m, cp).value.Some?
         && NextFilePosition(m, cp).value.value.index == cp.value.fileIndex) {
      FreshFileIsHonest(hash, m, s.sources, s.store.disk.files, cp);
    }
  }

  lemma NextPositionIsInFileIfAny(m: Manifest, cp: Option<Checkpoint>)
    requires NextFilePosition(m, cp).Ok?
    ensures match NextFilePosition(m, cp).value
            case None => true
            case Some(p) => IsFileAt(m, p.index) && (p.offset > 0 ==> cp.Some? && cp.value.fileIndex == p.index)
  {
    if NextFilePosition(m, cp).value.Some? {
      NextPositionIsInFile(m, cp);
    }
  }

  /** The receiver takes the next chunk exactly unless it would complete a dishonest part. */
  lemma TakenUnlessDishonest(hash: Hash, m: Manifest, s: State)
    requires Separate(m) && Agreed(hash, m, s) && s.sender.reader.Some? && !s.sender.reader.value.finished
    ensures OutgoingChunk(m, s).last ==>
              (Takes(hash, m, s.store, s.receiver.session, OutgoingChunk(m, s)) <==> Honest(hash, m, s))
    ensures !OutgoingChunk(m, s).last ==> Takes(hash, m, s.store, s.receiver.session, OutgoingChunk(m, s))
  {
    hide InStep, WriterInStep, Delivered, NoFinishedEmptyFile, ExpectsFrom, NextFilePosition, TakeChunk, AdmitChunk;
    OutgoingIsAdmitted(hash, m, s);
    var chunk := OutgoingChunk(m, s);
    var content := s.sources[s.sender.index].value;
    var p := NextFilePosition(m, s.receiver.session.checkpoint).value.value;
    assert AdmitChunk(s.receiver.session, chunk) == Ok(p) && p.index == s.sender.index && p.offset == chunk.offset;
    if chunk.last {
      assert chunk.payload == content[chunk.offset..];
    }
  }

  // ---------------------------------------------------------------- one chunk, as agreement

  lemma TakenChunkHonesty(hash: Hash, m: Manifest, s: State)
    requires Separate(m) && Agreed(hash, m, s) && s.sender.reader.Some? && !s.sender.reader.value.finished
    requires Takes(hash, m, s.store, s.receiver.session, OutgoingChunk(m, s))
    ensures var chunk := OutgoingChunk(m, s);
            var (store, session', r) := TakeChunk(hash, s.store, s.receiver.session, chunk);
            && NextFilePosition(m, session'.checkpoint).Ok?
            && (Honest(hash, m, s) || chunk.last ==>
                  PartHonest(hash, m, s.sources, store.disk.files, session'.checkpoint))
  {
    hide Agreed, Separate, TakeChunk, AdmitChunk, Takes, NextChunk, NextFilePosition, OutgoingChunk, SessionInStep,
         ReceiverSound, MayOpen,
         PartHonest, PrefixAt, OthersKept;
    ReadingFacts(hash, m, s);
    OutgoingIsAdmitted(hash, m, s);
    TakenChunkPosition(hash, m, s);
    var chunk := OutgoingChunk(m, s);
    var session, i := s.receiver.session, s.sender.index;
    var (store, session', r) := TakeChunk(hash, s.store, session, chunk);
    TakenPrefix(hash, m, s.store, session, chunk);
    var p := NextFilePosition(m, session.checkpoint).value.value;
    if chunk.last {
      FreshFileIsHonest(hash, m, s.sources, store.disk.files, session'.checkpoint);
    } else if Honest(hash, m, s) {
      PrefixGrows(m, s.sources[i].value, PrefixAt(m, s.store.disk.files, p), chunk.offset, chunk.plainLen);
      StillHonest(hash, m, s.sources, s.store.disk.files, session.checkpoint, store.disk.files, session'.checkpoint,
                  chunk.payload);
    }
  }

  /** What a taken chunk leaves at the next position: its bytes behind the prefix, or an untouched file. */
  lemma TakenPrefix(hash: Hash, m: Manifest, store: Store, session: Session, chunk: Chunk)
    requires Separate(m) && SessionInStep(hash, m, store, session) && Takes(hash, m, store, session, chunk)
    ensures var p := AdmitChunk(session, chunk).value;
            var (store', session', r) := TakeChunk(hash, store, session, chunk);
            && NextFilePosition(m, session'.checkpoint).Ok? && IsFileAt(m, p.index)
            && match NextFilePosition(m, session'.checkpoint).value
               case None => true
               case Some(q) =>
                 && IsFileAt(m, q.index)
                 && (q.index != p.index && q.offset == 0 && chunk.last ==> PrefixAt(m, store'.disk.files, q) == [])
                 && (q.index == p.index && !chunk.last ==>
                       PrefixAt(m, store'.disk.files, q) == PrefixAt(m, store.disk.files, p) + chunk.payload)
  {
    hide TakeChunk, AdmitChunk, NextFilePosition, Separate, OthersKept, WriterInStep, InStep;
    ChunkEffect(hash, m, store, session, chunk);
    ChunkAcknowledgedIff(hash, m, store, session, chunk);
    ChunkKeepsInStep(hash, m, store, session, chunk);
    var (store', session', r) := TakeChunk(hash, store, session, chunk);
    NextInStep(hash, m, store'.disk.files, session'.checkpoint);
    AcknowledgedCheckpoint(hash, store, session, chunk);
  }

  /** In step, a file the checkpoint does not point into has no part. */
  lemma NextInStep(hash: Hash, m: Manifest, files: map<string, Bytes>, cp: Option<Checkpoint>)
    requires InStep(hash, m, files, cp)
    ensures NextFilePosition(m, cp).Ok?
    ensures match NextFilePosition(m, cp).value
            case None => true
            case Some(p) => IsFileAt(m, p.index) && (cp.Some? && cp.value.fileIndex != p.index ==>
                                                       PrefixAt(m, files, p) == [])
  {
    hide NextFilePosition, PublishedBefore, NothingLive;
  }

  /** Adding the source's next bytes to an honest part leaves it honest. */
  lemma StillHonest(hash: Hash, m: Manifest, sources: seq<Option<Bytes>>, files: map<string, Bytes>,
                    cp: Option<Checkpoint>,
                    files': map<string, Bytes>, cp': Option<Checkpoint>, payload: Bytes)
    requires SourcesIntact(hash, m, sources) && NextFilePosition(m, cp).Ok? && NextFilePosition(m, cp').Ok?
    requires NextFilePosition(m, cp).value.Some? && NextFilePosition(m, cp').value.Some?
             && PartHonest(hash, m, sources, files, cp)
    requires var p, q := NextFilePosition(m, cp).value.value, NextFilePosition(m, cp').value.value;
             && q.index == p.index && q.offset == p.offset + |payload| <= m.entries[p.index].size
             && payload == sources[p.index].value[p.offset..q.offset]
             && PrefixAt(m, files', q) == PrefixAt(m, files, p) + payload
             && PrefixAt(m, files', q) + sources[p.index].value[q.offset..] == PrefixAt(m, files, p)
                  + sources[p.index].value[p.offset..]
    ensures PartHonest(hash, m, sources, files', cp')
  {
    hide NextFilePosition, PrefixAt;
  }

  /** Agreement after a chunk, from the new position and the new store. */
  lemma AgreedAfterChunk(hash: Hash, m: Manifest, s: State, t: State, chunk: Chunk)
    requires Agreed(hash, m, s) && s.sender.reader.Some? && !s.sender.reader.value.finished
    requires t.receiver.Receiving? && ReceiverSound(hash, m, t) && MayOpen(m, t.store)
    requires var i := s.sender.index;
             var end := chunk.offset + chunk.plainLen;
             && IsFileAt(m, i) && i < |s.sources| && s.sources[i].Some? && |s.sources[i].value| == m.entries[i].size
             && end <= m.entries[i].size && (chunk.last <==> end == m.entries[i].size)
             && chunk.offset == s.sender.reader.value.offset && (chunk.plainLen > 0 || m.entries[i].size == 0)
             && chunk.payload == s.sources[i].value[chunk.offset..end]
             && t == s.(sender := Streaming(s.sender.resume, i,
                                            Some(Reader(end, chunk.last,
                                                        s.sender.reader.value.absorbed + chunk.payload))),
                        store := t.store, receiver := t.receiver)
             && t.receiver.session.checkpoint == Some(CheckpointAfterChunk(m, i, end))
             && NextFilePosition(m, t.receiver.session.checkpoint) ==
                Ok(if chunk.last then StartOfFileFrom(m, i + 1)
                  else Some(Position(i, end, BytesBefore(m.entries, i) + end)))
             && (s.sender.resume.Some? ==> s.sender.resume.value.fileIndex <= i)
    requires PartHonest(hash, m, t.sources, t.store.disk.files, t.receiver.session.checkpoint) ||
             (s.sender.resume.Some? && !chunk.last && s.sender.resume.value.fileIndex == s.sender.index)
    ensures Agreed(hash, m, t)
  {
    hide SessionInStep, Delivered, PartHonest, NoFinishedEmptyFile, NextFilePosition, MayOpen, CheckpointAfterChunk,
         StartOfFileFrom, BytesBefore, ReceiverSound;
    var content := s.sources[s.sender.index].value;
    assert content[..chunk.offset] + content[chunk.offset..chunk.offset + chunk.plainLen]
           == content[..chunk.offset + chunk.plainLen];
    assert content[..|content|] == content;
  }

  /** After a taken chunk the peers agree again, on the same honesty. */
  lemma TakenChunkAgrees(hash: Hash, m: Manifest, s: State)
    requires Separate(m) && Agreed(hash, m, s) && s.sender.reader.Some? && !s.sender.reader.value.finished
    requires Takes(hash, m, s.store, s.receiver.session, OutgoingChunk(m, s))
    ensures var t := Ticks(hash, m, s, 4);
            && Agreed(hash, m, t) && (Honest(hash, m, s) ==> Honest(hash, m, t))
            && t.sender.resume == s.sender.resume && t.sender.index == s.sender.index && t.sender.reader.Some?
            && (t.sender.reader.value.finished || t.sender.reader.value.offset > s.sender.reader.value.offset)
  {
    hide Agreed, Ticks, Offers, TakeChunk, AdmitChunk, Takes, NextChunk, OutgoingChunk, CheckpointAfterChunk,
         NextFilePosition,
         StartOfFileFrom, BytesBefore, PartHonest, MayOpen, SessionInStep, Delivered, Separate, ReceiverSound;
    ReadingFacts(hash, m, s);
    ChunkRoundTrip(hash, m, s);
    OutgoingIsAdmitted(hash, m, s);
    TakenChunkPosition(hash, m, s);
    TakenChunkHonesty(hash, m, s);
    var chunk := OutgoingChunk(m, s);
    TakenChunkSound(hash, m, s, chunk, Ticks(hash, m, s, 4));
    AgreedAfterChunk(hash, m, s, Ticks(hash, m, s, 4), chunk);
  }

  /** What a taken chunk leaves is sound and can be opened again. */
  lemma TakenChunkSound(hash: Hash, m: Manifest, s: State, chunk: Chunk, t: State)
    requires Separate(m) && Agreed(hash, m, s) && Takes(hash, m, s.store, s.receiver.session, chunk)
    requires var (store, session, r) := TakeChunk(hash, s.store, s.receiver.session, chunk);
               t.store == store && t.receiver == Receiving(session)
    ensures MayOpen(m, t.store) && ReceiverSound(hash, m, t)
  {
    hide TakeChunk, AdmitChunk, Takes, InStep, WriterInStep, Delivered, Separate, MayOpen, PartHonest,
         NoFinishedEmptyFile, ExpectsFrom, ReaderAgrees;
    SeparateIsWellFormed(m);
    TakeChunkSound(hash, m, s, chunk);
    ChunkAcknowledgedIff(hash, m, s.store, s.receiver.session, chunk);
    TakeChunkKeepsOpen(hash, s.store, s.receiver.session, chunk);
  }

  lemma ReadingFacts(hash: Hash, m: Manifest, s: State)
    requires Agreed(hash, m, s) && s.sender.reader.Some? && !s.sender.reader.value.finished
    ensures var i := s.sender.index;
            && s.queued && s.toReceiver == [] && s.toSender == []
            && s.sender.Streaming? && s.receiver.Receiving? && s.receiver.session.manifest == m && IsFileAt(m, i)
            && i < |s.sources| && s.sources[i].Some? && |s.sources[i].value| == m.entries[i].size
            && (s.sender.reader.value.offset < m.entries[i].size
                || (m.entries[i].size == 0 && s.sender.reader.value.offset == 0))
            && SessionInStep(hash, m, s.store, s.receiver.session) && ReceiverSound(hash, m, s) && MayOpen(m, s.store)
            && SourcesIntact(hash, m, s.sources)
            && (PartHonest(hash, m, s.sources, s.store.disk.files, s.receiver.session.checkpoint) ||
                (s.sender.resume.Some? && s.sender.resume.value.fileIndex == i))
            && NextFilePosition(m, s.receiver.session.checkpoint) ==
               Ok(Some(Position(i, s.sender.reader.value.offset,
                                BytesBefore(m.entries, i) + s.sender.reader.value.offset)))
            && (s.sender.resume.Some? ==> s.sender.resume.value.fileIndex <= i)
  {
    hide InStep, WriterInStep, Delivered, PartHonest, NoFinishedEmptyFile, MayOpen;
  }

  lemma TakenChunkPosition(hash: Hash, m: Manifest, s: State)
    requires Separate(m) && Agreed(hash, m, s) && s.sender.reader.Some? && !s.sender.reader.value.finished
    requires Takes(hash, m, s.store, s.receiver.session, OutgoingChunk(m, s))
    ensures var chunk := OutgoingChunk(m, s);
            var i := s.sender.index;
            var end := chunk.offset + chunk.plainLen;
            var session' := TakeChunk(hash, s.store, s.receiver.session, chunk).1;
            && session'.checkpoint == Some(CheckpointAfterChunk(m, i, end))
            && NextFilePosition(m, session'.checkpoint) ==
               Ok(if chunk.last then StartOfFileFrom(m, i + 1)
                 else Some(Position(i, end, BytesBefore(m.entries, i) + end)))
            && (s.sender.resume.Some? ==> s.sender.resume.value.fileIndex <= i)
  {
    hide Agreed, Separate, TakeChunk, AdmitChunk, OutgoingChunk, CheckpointAfterChunk, NextFilePosition, Takes,
         StartOfFileFrom, BytesBefore,
         SessionInStep, ReceiverSound, MayOpen, PartHonest, SourcesIntact, NextChunk;
    ReadingFacts(hash, m, s);
    OutgoingIsAdmitted(hash, m, s);
    var chunk := OutgoingChunk(m, s);
    ChunkAcknowledgedIff(hash, m, s.store, s.receiver.session, chunk);
    AcknowledgedCheckpoint(hash, s.store, s.receiver.session, chunk);
    ChunkAdvancesPosition(m, s.receiver.session.checkpoint, chunk.plainLen);
  }

  // ---------------------------------------------------------------- the rest of an attempt

  /** The next attempt can resume: nothing finished is empty, and what is there continues to the declared content. */
  ghost predicate Resumable(hash: Hash, m: Manifest, s: State) {
    && Rested(hash, m, s) && MayOpen(m, s.store)
    && NoFinishedEmptyFile(m, ResumePoint(hash, m, s))
    && NextFilePosition(m, ResumePoint(hash, m, s)).Ok?
    && PartHonest(hash, m, s.sources, Reconciled(hash, m, s.store.disk).0.files, ResumePoint(hash, m, s))
  }

  /** Refusing a dishonest part discards it, and the connection is back at rest with an honest checkpoint. */
  lemma RefusalDiscardsPart(hash: Hash, m: Manifest, s: State)
    requires Separate(m) && Agreed(hash, m, s) && s.sender.reader.Some? && !s.sender.reader.value.finished
    requires !Takes(hash, m, s.store, s.receiver.session, OutgoingChunk(m, s))
    ensures !Honest(hash, m, s) && Resumable(hash, m, Ticks(hash, m, s, 3)) && Ticks(hash, m, s, 3).sources == s.sources
    ensures Offers(hash, m, s, 3) == 0
  {
    hide InStep, WriterInStep, Delivered, TakeChunk, AdmitChunk, NextFilePosition, NextChunk, Reconciled, Ticks,
         Offers, CheckpointBeforeEntry, DirectoryBlocked;
    var session, i, chunk := s.receiver.session, s.sender.index, OutgoingChunk(m, s);
    OutgoingIsAdmitted(hash, m, s);
    TakenUnlessDishonest(hash, m, s);
    ChunkAcknowledgedIff(hash, m, s.store, session, chunk);
    ChunkRefused(hash, m, s, chunk, Reader(chunk.offset + chunk.plainLen, chunk.last,
                                           s.sender.reader.value.absorbed + chunk.payload));
    ChunkKeepsInStep(hash, m, s.store, session, chunk);
    TakeChunkSound(hash, m, s, chunk);
    MismatchRollsBack(hash, m, s.store, session, chunk);
    TakeChunkKeepsOpen(hash, s.store, session, chunk);
    ChunkRecordsIncomplete(hash, s.store, session, chunk);
    var t := Ticks(hash, m, s, 3);
    var cp := CheckpointBeforeEntry(m, i);
    ReconcileFixesExactlyInStep(hash, m, t.store.disk, cp);
    assert ResumePoint(hash, m, t) == cp && Reconciled(hash, m, t.store.disk).0 == t.store.disk;
    RollbackRestartsFile(m, i);
    RolledBackPrefixIsEmpty(hash, m, t.store.disk.files, i);
    FreshFileIsHonest(hash, m, s.sources, t.store.disk.files, cp);
  }

  lemma RolledBackPrefixIsEmpty(hash: Hash, m: Manifest, files: map<string, Bytes>, i: nat)
    requires IsFileAt(m, i) && InStep(hash, m, files, CheckpointBeforeEntry(m, i))
    ensures PrefixAt(m, files, Position(i, 0, BytesBefore(m.entries, i))) == []
  {
    RollbackRestartsFile(m, i);
  }

  /**
   * From agreement the attempt ends acknowledged, or, only if the resumed part was dishonest, back at rest and
   * resumable.
   */
  lemma {:induction false} AttemptEnds(hash: Hash, m: Manifest, s: State) returns (n: nat)
    requires Separate(m) && Agreed(hash, m, s)
    ensures var t := Ticks(hash, m, s, n);
            !t.queued || (!Honest(hash, m, s) && Resumable(hash, m, t) && t.sources == s.sources)
    ensures Offers(hash, m, s, n) == 0
    decreases |m.entries| - s.sender.index, if s.sender.reader.None? then 1 else 0,
              if s.sender.reader.None? || s.sender.reader.value.finished then 0
                else m.entries[s.sender.index].size - s.sender.reader.value.offset + 1
  {
    hide Tick, Ticks, Offers, Takes, Agreed, Honest, Resumable, OutgoingChunk, Separate;
    AgreedPlace(hash, m, s);
    if s.sender.index == |m.entries| {
      CloseAttempt(hash, m, s);
      n := 3;
    } else if s.sender.reader.Some? && !s.sender.reader.value.finished {
      if Takes(hash, m, s.store, s.receiver.session, OutgoingChunk(m, s)) {
        TakenChunkAgrees(hash, m, s);
        ChunkRoundTrip(hash, m, s);
        AgreedPlace(hash, m, Ticks(hash, m, s, 4));
        var rest := AttemptEnds(hash, m, Ticks(hash, m, s, 4));
        TicksCompose(hash, m, s, 4, rest);
        OffersCompose(hash, m, s, 4, rest);
        n := 4 + rest;
      } else {
        RefusalDiscardsPart(hash, m, s);
        n := 3;
      }
    } else {
      QuietTick(hash, m, s);
      AgreedPlace(hash, m, Tick(hash, m, s));
      FewTicks(hash, m, s);
      var rest := AttemptEnds(hash, m, Tick(hash, m, s));
      TicksCompose(hash, m, s, 1, rest);
      StreamingMakesNoOffer(hash, m, s, rest);
      n := 1 + rest;
    }
  }

  lemma StreamingMakesNoOffer(hash: Hash, m: Manifest, s: State, n: nat)
    requires s.sender.Streaming?
    ensures Offers(hash, m, s, 1 + n) == Offers(hash, m, Tick(hash, m, s), n)
  {
    hide Tick;
  }

  /** Between chunks the sender moves on by itself. */
  lemma QuietTick(hash: Hash, m: Manifest, s: State)
    requires Separate(m) && Agreed(hash, m, s) && s.sender.index < |m.entries|
    requires s.sender.reader.Some? ==> s.sender.reader.value.finished
    ensures var t := Tick(hash, m, s);
            && Agreed(hash, m, t) && t.sources == s.sources && (Honest(hash, m, s) <==> Honest(hash, m, t))
            && (if s.sender.reader.None? && m.entries[s.sender.index].File? then
                  t.sender.index == s.sender.index && t.sender.reader.Some?
                else
                  t.sender.index == s.sender.index + 1)
  {
    hide Tick, Agreed, Separate;
    AgreedPlace(hash, m, s);
    if s.sender.reader.Some? {
      CloseFile(hash, m, s);
    } else if m.entries[s.sender.index].Directory? {
      SkipDirectory(hash, m, s);
    } else {
      OpenFile(hash, m, s);
    }
    AgreedPlace(hash, m, Tick(hash, m, s));
  }

  lemma AgreedPlace(hash: Hash, m: Manifest, s: State)
    requires Agreed(hash, m, s)
    ensures s.sender.Streaming? && s.sender.index <= |m.entries| && s.receiver.Receiving?
            && s.receiver.session.manifest == m
    ensures SourcesIntact(hash, m, s.sources) && NextFilePosition(m, s.receiver.session.checkpoint).Ok?
    ensures s.sender.reader.Some? ==> IsFileAt(m, s.sender.index)
    ensures s.sender.reader.Some? ==> s.sender.index < |s.sources| && s.sources[s.sender.index].Some?
                                      && |s.sources[s.sender.index].value| == m.entries[s.sender.index].size
    ensures s.sender.reader.Some? && !s.sender.reader.value.finished ==>
              s.sender.reader.value.offset <= m.entries[s.sender.index].size
  {
    hide PartHonest, NoFinishedEmptyFile, ExpectsFrom, MayOpen, Delivered, InStep, WriterInStep, NextFilePosition;
  }

  // ---------------------------------------------------------------- acknowledged eventually

  lemma AttemptStartsAgreed(hash: Hash, m: Manifest, s: State)
    requires Separate(m) && Rested(hash, m, s) && MayOpen(m, s.store) && NoFinishedEmptyFile(m, ResumePoint(hash, m, s))
    ensures var t := Ticks(hash, m, s, 3);
            && Agreed(hash, m, t) && t.sources == s.sources
            && (Resumable(hash, m, s) ==> Honest(hash, m, t))
            && Offers(hash, m, s, 3) == 1
  {
    hide Ticks, Offers, Reconciled, Delivered, WriterInStep, PartHonest, NoFinishedEmptyFile, InStep, MayOpen;
    AttemptOpens(hash, m, s);
    var t := Ticks(hash, m, s, 3);
    var cp := ResumePoint(hash, m, s);
    if !PartHonest(hash, m, t.sources, t.store.disk.files, cp) {
      DishonestOnlyAtCheckpoint(hash, m, t, cp);
    }
  }

  /**
   * From rest, an undisturbed connection delivers with at most two offers if the transfer can open and no finished
   * file is empty, and with one if what is there continues to the declared content.
   */
  lemma UndisturbedDelivers(hash: Hash, m: Manifest, s: State) returns (n: nat)
    requires Separate(m) && Rested(hash, m, s) && MayOpen(m, s.store)
    requires NoFinishedEmptyFile(m, ResumePoint(hash, m, s))
    ensures !Ticks(hash, m, s, n).queued
    ensures Offers(hash, m, s, n) <= if Resumable(hash, m, s) then 1 else 2
  {
    hide Ticks, Offers, Agreed, Honest, Resumable, NoFinishedEmptyFile, Rested, Tick, ResumePoint;
    n := AttemptFromRest(hash, m, s);
    if Ticks(hash, m, s, n).queued {
      var again := Ticks(hash, m, s, n);
      ResumableIsRested(hash, m, again);
      var k := AttemptFromRest(hash, m, again);
      TicksCompose(hash, m, s, n, k);
      OffersCompose(hash, m, s, n, k);
      n := n + k;
    }
  }

  /** One offer: acknowledged, or, only if the part resumed was dishonest, back at rest with an honest one. */
  lemma AttemptFromRest(hash: Hash, m: Manifest, s: State) returns (n: nat)
    requires Separate(m) && Rested(hash, m, s) && MayOpen(m, s.store)
    requires NoFinishedEmptyFile(m, ResumePoint(hash, m, s))
    ensures var t := Ticks(hash, m, s, n); !t.queued || (!Resumable(hash, m, s) && Resumable(hash, m, t))
    ensures Offers(hash, m, s, n) == 1
  {
    hide Ticks, Offers, Agreed, Honest, Resumable, NoFinishedEmptyFile, Rested, Tick, ResumePoint;
    AttemptStartsAgreed(hash, m, s);
    var k := AttemptEnds(hash, m, Ticks(hash, m, s, 3));
    TicksCompose(hash, m, s, 3, k);
    OffersCompose(hash, m, s, 3, k);
    n := 3 + k;
  }

  lemma ResumableIsRested(hash: Hash, m: Manifest, s: State)
    requires Resumable(hash, m, s)
    ensures Rested(hash, m, s) && MayOpen(m, s.store) && NoFinishedEmptyFile(m, ResumePoint(hash, m, s))
  {
  }

  /** File `e` is empty, finished according to the checkpoint, and the first such file. */
  ghost predicate Blocks(m: Manifest, cp: Checkpoint, e: nat) {
    && ValidCheckpoint(m, cp, false)
    && IsFileAt(m, e) && m.entries[e].size == 0 && e <= cp.fileIndex
    && (forall j: nat :: j < e && IsFileAt(m, j) ==> m.entries[j].size > 0)
  }

  lemma {:induction false} FirstEmptyFile(m: Manifest, cp: Checkpoint, i: nat) returns (e: nat)
    requires ValidCheckpoint(m, cp, false) && IsFileAt(m, i) && m.entries[i].size == 0 && i <= cp.fileIndex
    ensures Blocks(m, cp, e)
    decreases i
  {
    if j: nat :| j < i && IsFileAt(m, j) && m.entries[j].size == 0 {
      e := FirstEmptyFile(m, cp, j);
    } else {
      e := i;
    }
  }

  /** The chunk the sender makes of an empty file. */
  function EmptyChunk(m: Manifest, e: nat): Chunk {
    Chunk(m.id, e, 0, 0, true, true, [])
  }

  /** The states of an attempt that is bound to be refused at the empty file `e`. */
  ghost predicate Stuck(hash: Hash, m: Manifest, s: State, cp: Checkpoint, e: nat) {
    && s.queued && SourcesIntact(hash, m, s.sources) && ReceiverSound(hash, m, s)
    && MayOpen(m, s.store)
    && Blocks(m, cp, e) && ResumePoint(hash, m, s) == Some(cp)
    && (s.receiver.Listening? || (s.receiver.Receiving? && s.receiver.session.checkpoint == Some(cp)))
    && match s.sender
       case Resting => s.receiver.Listening? && s.toReceiver == [] && s.toSender == []
       case Offering =>
         || (s.receiver.Listening? && s.toReceiver == [Offer(m)] && s.toSender == [])
         || (s.receiver.Receiving? && s.toReceiver == [] && s.toSender == [Accept(Some(cp))])
       case Streaming(resume, i, reader) =>
         && resume == Some(cp) && i <= e && s.receiver.Receiving? && s.toReceiver == [] && s.toSender == []
         && (reader.Some? ==>
               && IsFileAt(m, i)
               && (i == e ==> reader.value == Reader(0, false, []))
               && (i < e ==> reader.value.finished && reader.value.absorbed == s.sources[i].value))
       case AwaitingCheckpoint(_, _, _, _) =>
         || (s.receiver.Receiving? && s.toReceiver == [ChunkMessage(EmptyChunk(m, e))] && s.toSender == [])
         || (s.receiver.Listening? && s.toReceiver == [] && s.toSender == [Cancel])
       case _ => false
  }

  /** The receiver never admits the finished empty file again. */
  lemma EmptyChunkRefused(m: Manifest, s: Session, cp: Checkpoint, e: nat)
    requires Blocks(m, cp, e) && s.manifest == m && s.checkpoint == Some(cp)
    ensures AdmitChunk(s, EmptyChunk(m, e)).Err?
  {
  }

  lemma StuckSenderTick(hash: Hash, m: Manifest, s: State, cp: Checkpoint, e: nat)
    requires Separate(m) && Stuck(hash, m, s, cp, e) && s.toReceiver == []
    ensures Stuck(hash, m, Tick(hash, m, s), cp, e)
  {
    hide Reconciled, SessionInStep, Delivered, AdmitChunk, MayOpen, Separate, ReceiverSound, ResumePoint, StreamFile;
    if s.sender.Streaming? && IsFileAt(m, s.sender.index) {
      StuckStreams(hash, m, s, cp, e);
    } else {
      StuckElsewhere(hash, m, s, cp, e, Tick(hash, m, s));
    }
  }

  /** Files before the empty one are skipped, and the empty one is sent again. */
  lemma StuckStreams(hash: Hash, m: Manifest, s: State, cp: Checkpoint, e: nat)
    requires Separate(m) && Stuck(hash, m, s, cp, e) && s.sender.Streaming? && IsFileAt(m, s.sender.index)
    ensures Stuck(hash, m, StreamFile(hash, m, s, s.sender.resume, s.sender.index, s.sender.reader), cp, e)
  {
    hide Reconciled, SessionInStep, Delivered, AdmitChunk, MayOpen, Separate, ReceiverSound, ResumePoint,
         CheckpointAfterChunk;
    var content := s.sources[s.sender.index].value;
    assert content[..0] == [] && content[..|content|] == content;
    StuckElsewhere(hash, m, s, cp, e, StreamFile(hash, m, s, s.sender.resume, s.sender.index, s.sender.reader));
  }

  /** What the sender leaves alone stays as it is. */
  lemma StuckElsewhere(hash: Hash, m: Manifest, s: State, cp: Checkpoint, e: nat, t: State)
    requires Stuck(hash, m, s, cp, e) && t.store == s.store && t.receiver == s.receiver && t.sources == s.sources
    ensures ReceiverSound(hash, m, t) && ResumePoint(hash, m, t) == Some(cp)
  {
    hide Reconciled, SessionInStep, Delivered, MayOpen, Blocks;
  }

  lemma StuckReceiverTick(hash: Hash, m: Manifest, s: State, cp: Checkpoint, e: nat)
    requires Separate(m) && Stuck(hash, m, s, cp, e) && s.toReceiver != []
    ensures Stuck(hash, m, Tick(hash, m, s), cp, e)
  {
    hide Reconciled, InStep, WriterInStep, Delivered, Prepare, AdmitChunk, NoPartDirectory, DirectoryBlocked;
    if s.receiver.Listening? {
      PrepareSucceedsIff(hash, s.store, m);
      PrepareSound(hash, m, s);
      PrepareKeepsOpen(hash, s.store, m);
      var (store, prepared) := Prepare(hash, s.store, m);
      OfferMatchesSession(hash, m, store, prepared.value);
      ReconcileIdempotent(hash, m, s.store.disk);
    } else {
      EmptyChunkRefused(m, s.receiver.session, cp, e);
    }
  }

  lemma {:induction false} StuckForever(hash: Hash, m: Manifest, s: State, cp: Checkpoint, e: nat, n: nat)
    requires Separate(m) && Stuck(hash, m, s, cp, e)
    ensures Stuck(hash, m, Ticks(hash, m, s, n), cp, e)
    decreases n
  {
    hide Stuck, Tick;
    if n > 0 {
      if s.toReceiver == [] {
        StuckSenderTick(hash, m, s, cp, e);
      } else {
        StuckReceiverTick(hash, m, s, cp, e);
      }
      StuckForever(hash, m, Tick(hash, m, s), cp, e, n - 1);
    }
  }

  lemma {:induction false} TicksSound(hash: Hash, m: Manifest, s: State, n: nat)
    requires Separate(m) && Sound(hash, m, s)
    ensures Sound(hash, m, Ticks(hash, m, s, n))
    decreases n
  {
    hide Sound, Tick;
    if n > 0 {
      TickIsAStep(hash, m, s);
      StepSound(hash, m, s, SenderActs);
      StepSound(hash, m, s, ReceiverActs(true, true));
      TicksSound(hash, m, Tick(hash, m, s), n - 1);
    }
  }

  // ---------------------------------------------------------------- a transfer that cannot open

  /** The states of attempts that are turned away because the transfer cannot open. */
  ghost predicate TurnedAway(hash: Hash, m: Manifest, s: State) {
    && s.queued && s.receiver.Listening? && ReceiverSound(hash, m, s) && !MayOpen(m, s.store)
    && ((s.sender.Resting? && s.toReceiver == [] && s.toSender == [])
        || (s.sender.Offering? && s.toReceiver == [Offer(m)] && s.toSender == [])
        || (s.sender.Offering? && s.toReceiver == [] && s.toSender == [Cancel]))
  }

  lemma TurnedAwayTick(hash: Hash, m: Manifest, s: State)
    requires Separate(m) && TurnedAway(hash, m, s)
    ensures TurnedAway(hash, m, Tick(hash, m, s))
  {
    PrepareSucceedsIff(hash, s.store, m);
    PrepareSound(hash, m, s);
    RefusalKeepsClosed(hash, s.store, m);
    hide Prepare, MayOpen, SessionInStep, Delivered, Separate;
    assert ReceiverSound(hash, m, s.(receiver := Listening));
  }

  /** A transfer that cannot open is turned away for ever. */
  lemma {:induction false} NeverOpens(hash: Hash, m: Manifest, s: State, n: nat)
    requires Separate(m) && TurnedAway(hash, m, s)
    ensures TurnedAway(hash, m, Ticks(hash, m, s, n))
    decreases n
  {
    hide TurnedAway, Tick;
    if n > 0 {
      TurnedAwayTick(hash, m, s);
      NeverOpens(hash, m, Tick(hash, m, s), n - 1);
    }
  }

  // ---------------------------------------------------------------- main result

  /** The checkpoint resumed from lies at or behind an empty file, so the attempt is refused there, for ever. */
  lemma FinishedEmptyFileIsFatal(hash: Hash, m: Manifest, s: State, n: nat)
    requires Separate(m) && Rested(hash, m, s) && MayOpen(m, s.store)
             && !NoFinishedEmptyFile(m, ResumePoint(hash, m, s))
    ensures Ticks(hash, m, s, n).queued
  {
    ReconcileEndsInStep(hash, m, s.store.disk);
    var cp := ResumePoint(hash, m, s).value;
    hide Reconciled, InStepUpTo, Ticks, Delivered;
    var i: nat :| i <= cp.fileIndex && IsFileAt(m, i) && m.entries[i].size == 0;
    assert ValidCheckpoint(m, cp, false) by { InStepIsValid(hash, m, Reconciled(hash, m, s.store.disk).0.files, cp); }
    var e := FirstEmptyFile(m, cp, i);
    StuckForever(hash, m, s, cp, e, n);
  }

  lemma InStepIsValid(hash: Hash, m: Manifest, files: map<string, Bytes>, cp: Checkpoint)
    requires InStep(hash, m, files, Some(cp))
    ensures ValidCheckpoint(m, cp, false)
  {
  }

  /**
   * On an undisturbed connection with intact sources, to a receiver whose policy accepts the manifest, from whatever
   * earlier attempts left: the transfer is eventually acknowledged exactly when it can open (the root is new or has a
   * record, and no file or directory is in the way) and no empty file lies at or before the checkpoint resumed from.
   */
  lemma DeliversIff(hash: Hash, m: Manifest, s: State)
    requires Separate(m) && Rested(hash, m, s)
    ensures (exists n: nat :: !Ticks(hash, m, s, n).queued) <==>
            MayOpen(m, s.store) && NoFinishedEmptyFile(m, ResumePoint(hash, m, s))
    ensures forall n: nat :: !Ticks(hash, m, s, n).queued ==> Completed(hash, m, Ticks(hash, m, s, n).store)
  {
    hide Ticks, MayOpen, NoFinishedEmptyFile, Completed, Separate, Reconciled, Delivered, SessionInStep;
    forall n: nat ensures !Ticks(hash, m, s, n).queued ==> Completed(hash, m, Ticks(hash, m, s, n).store) {
      TicksSound(hash, m, s, n);
    }
    if !MayOpen(m, s.store) {
      forall n: nat ensures Ticks(hash, m, s, n).queued {
        NeverOpens(hash, m, s, n);
      }
    } else if NoFinishedEmptyFile(m, ResumePoint(hash, m, s)) {
      var n := UndisturbedDelivers(hash, m, s);
    } else {
      forall n: nat ensures Ticks(hash, m, s, n).queued {
        FinishedEmptyFileIsFatal(hash, m, s, n);
      }
    }
  }

  /**
   * A first attempt finds nothing to resume from, so it is delivered exactly when no directory is named like a file's
   * part.
   */
  lemma FirstAttemptDeliversIff(hash: Hash, m: Manifest, sources: seq<Option<Bytes>>)
    requires Separate(m) && SourcesIntact(hash, m, sources)
    ensures (exists n: nat :: !Ticks(hash, m, Start(sources), n).queued) <==> NoPartDirectory(m)
  {
    var s := Start(sources);
    hide Ticks, NoPartDirectory;
    EmptyDiskResumesNowhere(hash, m, s.store.disk, 0, false);
    DeliversIff(hash, m, s);
  }

  lemma {:induction false} EmptyDiskResumesNowhere(hash: Hash, m: Manifest, d: Disk, i: nat, gap: bool)
    requires d.files == map[] && i <= |m.entries|
    ensures Reconcile(hash, m, d, i, gap, None).1.Ok? ==> Reconcile(hash, m, d, i, gap, None).1 == Ok(None)
    decreases |m.entries| - i
  {
    hide Obstructed;
    if i < |m.entries| {
      EmptyDiskResumesNowhere(hash, m, d, i + 1, gap || m.entries[i].File?);
    }
  }
}
