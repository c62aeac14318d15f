/**
 * The two peers of one queued transfer as a step system over channels:
 * apps/desktop/src/file_transfer.rs:370-505 (idle loop), 751-990 (sender),
 * 1051-1161 (receiver).  Attempts may be interrupted by disconnection,
 * timeouts, crashes that tear the disk, and changes to the source files, and
 * are repeated without bound.  Single messages may be lost as well, and channels
 * may deliver what is in flight in any order, which is more than a connection allows.
 */
module TransferProtocol {
  import opened Wrappers
  import opened TransferCheckpoint
  import opened ReceiveDisk
  import opened ReceiveSession

  const RUNTIME_CHUNK_SIZE: nat := 1024 * 1024

  datatype Message =
    | Offer(manifest: Manifest)
    | Accept(checkpoint: Option<Checkpoint>)
    | Reject
    | Cancel
    | ChunkMessage(chunk: Chunk)
    | CheckpointMessage(persisted: Checkpoint)
    | Ack(acknowledged: Checkpoint)
    | Complete(transferred: nat)

  /** A source file being read; `absorbed` is what its hasher has seen, the resume prefix included. */
  datatype Reader = Reader(offset: nat, finished: bool, absorbed: Bytes)

  datatype SenderPhase =
    | Resting
    | Offering
    | Streaming(resume: Option<Checkpoint>, index: nat, reader: Option<Reader>)
    | AwaitingCheckpoint(resume: Option<Checkpoint>, index: nat, reading: Reader, expected: Checkpoint)
    | AwaitingTerminal
    | HungUp

  datatype ReceiverPhase =
    | Listening
    | Receiving(session: Session)
    | AwaitingAck(session: Session, expected: Checkpoint)

  /** `sources[i]` is the present content of the file behind entry `i`, if it is still a regular file. */
  datatype State = State(
    queued: bool, sender: SenderPhase, sources: seq<Option<Bytes>>,
    toReceiver: seq<Message>, toSender: seq<Message>,
    store: Store, receiver: ReceiverPhase)

  datatype Action =
    | SenderActs
    | ReceiverActs(policyAllows: bool, permitFree: bool)
    | ReceiverTimesOut
    | MessageLost(towardsReceiver: bool, place: nat)
    | MessageOvertakes(towardsReceiver: bool, place: nat)
    | Disconnect
    | SourceChanges(sources: seq<Option<Bytes>>)
    | CrashTearsDisk(torn: Store)

  // ---------------------------------------------------------------- reading the source

  /** Opening at an offset reads the prefix into the hasher; only a non-zero offset takes the resume path. */
  function OpenReader(content: Option<Bytes>, size: nat, offset: nat): Result<Reader, string> {
    if content.None? then Err("queued source is no longer a regular file")
    else if |content.value| < offset then Err("source was truncated while hashing its resume prefix")
    else if offset > size || |content.value| != size then Err("source length does not match manifest length")
    else Ok(Reader(offset, offset != 0 && offset == size, content.value[..offset]))
  }

  function NextChunk(m: Manifest, index: nat, content: Option<Bytes>, rd: Reader): Result<(Option<Chunk>, Reader),
      string>
    requires IsFileAt(m, index)
  {
    var size := m.entries[index].size;
    if rd.finished then Ok((None, rd))
    else if size == 0 then Ok((Some(Chunk(m.id, index, 0, 0, true, true, [])), rd.(finished := true)))
    else
      var left := if rd.offset <= size then size - rd.offset else 0;
      var n := if left < RUNTIME_CHUNK_SIZE then left else RUNTIME_CHUNK_SIZE;
      if content.None? || |content.value| < rd.offset + n then Err("source read failed")
      else
        var payload := content.value[rd.offset..rd.offset + n];
        var end := rd.offset + n;
        Ok((Some(Chunk(m.id, index, rd.offset, n, true, end == size, payload)),
            Reader(end, end == size, rd.absorbed + payload)))
  }

  /** The offset the sender derives for a file from the checkpoint in the Accept. */
  function ResumeOffset(m: Manifest, resume: Option<Checkpoint>, index: nat): nat
    requires IsFileAt(m, index)
  {
    match resume
    case None => 0
    case Some(cp) =>
      if index < cp.fileIndex then m.entries[index].size
      else if index == cp.fileIndex then cp.offset
      else 0
  }

  function SourceAt(s: State, index: nat): Option<Bytes> {
    if index < |s.sources| then s.sources[index] else None
  }

  // ---------------------------------------------------------------- the sender

  function SendToReceiver(s: State, message: Message): State {
    s.(toReceiver := s.toReceiver + [message])
  }

  function SendToSender(s: State, message: Message): State {
    s.(toSender := s.toSender + [message])
  }

  /** Take the reader of file `index` one step: open it, send a chunk, or verify it at its end. */
  function StreamFile(hash: Hash, m: Manifest, s: State, resume: Option<Checkpoint>, index: nat,
                      reader: Option<Reader>): State
    requires IsFileAt(m, index)
  {
    var content := SourceAt(s, index);
    match reader
    case None =>
      (match OpenReader(content, m.entries[index].size, ResumeOffset(m, resume, index))
       case Err(_) => s.(sender := HungUp)
       case Ok(rd) => s.(sender := Streaming(resume, index, Some(rd))))
    case Some(rd) =>
      match NextChunk(m, index, content, rd)
      case Err(_) => s.(sender := HungUp)
      case Ok((Some(chunk), rd')) =>
        SendToReceiver(s, ChunkMessage(chunk)).(
          sender := AwaitingCheckpoint(resume, index, rd',
                                       CheckpointAfterChunk(m, index, chunk.offset + chunk.plainLen)))
      case Ok((None, rd')) =>
        if hash(rd'.absorbed) == m.entries[index].digest then s.(sender := Streaming(resume, index + 1, None))
        else SendToReceiver(s, Cancel).(sender := Resting)
  }

  function SenderReceives(m: Manifest, s: State, message: Message): State {
    match s.sender
    case Resting => SendToReceiver(s, Cancel)
    case Offering =>
      (match message
       case Accept(None) => s.(sender := Streaming(None, 0, None))
       case Accept(Some(cp)) =>
         if ValidCheckpoint(m, cp, false) then s.(sender := Streaming(Some(cp), 0, None)) else s.(sender := HungUp)
       case Reject => s.(sender := Resting)
       case Cancel => s.(sender := Resting)
       case _ => SendToReceiver(s, Cancel).(sender := HungUp))
    case AwaitingCheckpoint(resume, index, rd, expected) =>
      (match message
       case CheckpointMessage(actual) =>
         if actual == expected then SendToReceiver(s, Ack(actual)).(sender := Streaming(resume, index, Some(rd)))
         else SendToReceiver(s, Cancel).(sender := HungUp)
       case Reject => s.(sender := Resting)
       case Cancel => s.(sender := Resting)
       case _ => SendToReceiver(s, Cancel).(sender := HungUp))
    case AwaitingTerminal =>
      (match message
       case Ack(actual) =>
         if Ok(actual) == TerminalCheckpoint(m) then s.(queued := false, sender := Resting)
         else SendToReceiver(s, Cancel).(sender := HungUp)
       case Reject => s.(sender := Resting)
       case Cancel => s.(sender := Resting)
       case _ => SendToReceiver(s, Cancel).(sender := HungUp))
    case _ => s
  }

  function SenderStep(hash: Hash, m: Manifest, s: State): State {
    match s.sender
    case Streaming(resume, index, reader) =>
      if index >= |m.entries| then SendToReceiver(s, Complete(m.totalBytes)).(sender := AwaitingTerminal)
      else if m.entries[index].Directory? then s.(sender := Streaming(resume, index + 1, None))
      else StreamFile(hash, m, s, resume, index, reader)
    case HungUp => s
    case _ =>
      if s.sender.Resting? && s.queued then SendToReceiver(s, Offer(m)).(sender := Offering)
      else if s.toSender == [] then s
      else SenderReceives(m, s.(toSender := s.toSender[1..]), s.toSender[0])
  }

  // ---------------------------------------------------------------- the receiver

  function ReceiverReceives(hash: Hash, m: Manifest, s: State, message: Message, policyAllows: bool,
                            permitFree: bool): State {
    match s.receiver
    case Listening =>
      (match message
       case Offer(offered) =>
         if !policyAllows || !permitFree then SendToSender(s, Reject)
         else
           var (store, prepared) := Prepare(hash, s.store, offered);
           (match prepared
            case Err(_) => SendToSender(s.(store := store), Cancel)
            case Ok(session) => SendToSender(s.(store := store, receiver := Receiving(session)),
                                             Accept(OfferedCheckpoint(session))))
       case _ => SendToSender(s, Cancel))
    case Receiving(session) =>
      (match message
       case ChunkMessage(chunk) =>
         var (store, session', r) := TakeChunk(hash, s.store, session, chunk);
         (match r
          case Err(_) => SendToSender(s.(store := store, receiver := Listening), Cancel)
          case Ok(cp) => SendToSender(s.(store := store, receiver := AwaitingAck(session', cp)), CheckpointMessage(cp)))
       case Complete(transferred) =>
         var (store, session', r) := Finish(s.store, session, transferred);
         (match r
          case Err(_) => SendToSender(s.(store := store, receiver := Listening), Cancel)
          case Ok(cp) => SendToSender(s.(store := store, receiver := Listening), Ack(cp)))
       case Cancel => s.(receiver := Listening)
       case Reject => s.(receiver := Listening)
       case Offer(_) => SendToSender(s, Reject)
       case _ => SendToSender(s.(receiver := Listening), Cancel))
    case AwaitingAck(session, expected) =>
      match message
      case Ack(actual) =>
        if actual == expected then s.(receiver := Receiving(session))
        else SendToSender(s.(receiver := Listening), Cancel)
      case Cancel => s.(receiver := Listening)
      case Offer(_) => SendToSender(s, Reject)
      case _ => SendToSender(s.(receiver := Listening), Cancel)
  }

  function ReceiverStep(hash: Hash, m: Manifest, s: State, policyAllows: bool, permitFree: bool): State {
    if s.toReceiver == [] then s
    else ReceiverReceives(hash, m, s.(toReceiver := s.toReceiver[1..]), s.toReceiver[0], policyAllows, permitFree)
  }

  function Lost(messages: seq<Message>, place: nat): (r: seq<Message>)
    ensures forall message :: message in r ==> message in messages
  {
    if place < |messages| then messages[..place] + messages[place + 1..] else messages
  }

  /** The message at `place` comes before all the others. */
  function Overtaken(messages: seq<Message>, place: nat): (r: seq<Message>)
    ensures forall message :: message in r ==> message in messages
  {
    if place < |messages| then [messages[place]] + Lost(messages, place) else messages
  }

  function Disconnected(s: State): State {
    s.(sender := Resting, receiver := Listening, toReceiver := [], toSender := [])
  }

  /**
   * What a crash in the middle of an operation may leave: any files at all,
   * except that a fully delivered transfer stays so; the record is replaced atomically.
   */
  ghost predicate MayTearInto(hash: Hash, m: Manifest, before: Store, after: Store) {
    && after.record == before.record
    && (before.rootExists ==> after.rootExists)
    && (Delivered(hash, m, before.disk.files) ==> Delivered(hash, m, after.disk.files))
  }

  ghost function Step(hash: Hash, m: Manifest, s: State, a: Action): State {
    match a
    case SenderActs => SenderStep(hash, m, s)
    case ReceiverActs(policyAllows, permitFree) => ReceiverStep(hash, m, s, policyAllows, permitFree)
    case ReceiverTimesOut =>
      if s.receiver.Listening? then s else SendToSender(s.(receiver := Listening), Cancel)
    case MessageLost(towardsReceiver, place) =>
      if towardsReceiver then s.(toReceiver := Lost(s.toReceiver, place)) else s.(toSender := Lost(s.toSender, place))
    case MessageOvertakes(towardsReceiver, place) =>
      if towardsReceiver then s.(toReceiver := Overtaken(s.toReceiver, place))
        else s.(toSender := Overtaken(s.toSender, place))
    case Disconnect => Disconnected(s)
    case SourceChanges(sources) => s.(sources := sources)
    case CrashTearsDisk(torn) =>
      if MayTearInto(hash, m, s.store, torn) then Disconnected(s).(store := torn) else s
  }

  ghost function Run(hash: Hash, m: Manifest, s: State, actions: seq<Action>): State
    decreases |actions|
  {
    if actions == [] then s
    else Step(hash, m, Run(hash, m, s, actions[..|actions| - 1]), actions[|actions| - 1])
  }

  function Start(sources: seq<Option<Bytes>>): State {
    State(true, Resting, sources, [], [], Store(false, Disk(map[], multiset{}), None), Listening)
  }

  // ---------------------------------------------------------------- safety

  /** The receiver has recorded completion and really holds every declared file. */
  ghost predicate Completed(hash: Hash, m: Manifest, store: Store) {
    && store.rootExists && store.record.Some? && store.record.value.manifest == m && store.record.value.complete
    && Delivered(hash, m, store.disk.files)
  }

  /** Record and disk agree about completion, and an open session is in step with both. */
  ghost predicate ReceiverSound(hash: Hash, m: Manifest, s: State) {
    && (s.store.record.Some? ==>
          s.store.rootExists && s.store.record.value.manifest == m
          && (s.store.record.value.complete ==> Delivered(hash, m, s.store.disk.files)))
    && (!s.receiver.Listening? ==>
          var session := s.receiver.session;
          && SessionInStep(hash, m, s.store, session)
          && s.store.record == Some(ReceiveState(m, session.checkpoint, session.complete)))
  }

  ghost predicate Sound(hash: Hash, m: Manifest, s: State) {
    && ReceiverSound(hash, m, s)
    && (forall message :: message in s.toReceiver && message.Offer? ==> message.manifest == m)
    && (forall message :: message in s.toSender && message.Ack? ==> Completed(hash, m, s.store))
    && (!s.queued ==> Completed(hash, m, s.store))
  }

  /** What the sender does with its own phase and the messages it sends never touches the invariant. */
  lemma SenderMovesSound(hash: Hash, m: Manifest, s: State, sender: SenderPhase, message: Message)
    requires Sound(hash, m, s) && (message.Offer? ==> message.manifest == m)
    ensures Sound(hash, m, s.(sender := sender)) && Sound(hash, m, SendToReceiver(s, message).(sender := sender))
    ensures Completed(hash, m, s.store) ==> Sound(hash, m, s.(queued := false, sender := sender))
  {
    hide SessionInStep, Delivered;
  }

  lemma StreamFileSound(hash: Hash, m: Manifest, s: State, resume: Option<Checkpoint>, index: nat,
                        reader: Option<Reader>)
    requires Sound(hash, m, s) && IsFileAt(m, index)
    ensures Sound(hash, m, StreamFile(hash, m, s, resume, index, reader))
  {
    hide Sound, OpenReader, NextChunk, CheckpointAfterChunk;
    var t := StreamFile(hash, m, s, resume, index, reader);
    SenderMovesSound(hash, m, s, t.sender, Cancel);
    if |t.toReceiver| > |s.toReceiver| {
      SenderMovesSound(hash, m, s, t.sender, t.toReceiver[|s.toReceiver|]);
    }
  }

  lemma SenderStepSound(hash: Hash, m: Manifest, s: State)
    requires Sound(hash, m, s)
    ensures Sound(hash, m, SenderStep(hash, m, s))
  {
    hide Sound, StreamFile, SenderReceives;
    SenderMovesSound(hash, m, s, Offering, Offer(m));
    SenderMovesSound(hash, m, s, AwaitingTerminal, Complete(m.totalBytes));
    if s.sender.Streaming? {
      SenderMovesSound(hash, m, s, Streaming(s.sender.resume, s.sender.index + 1, None), Cancel);
      if IsFileAt(m, s.sender.index) {
        StreamFileSound(hash, m, s, s.sender.resume, s.sender.index, s.sender.reader);
      }
    }
    if s.toSender != [] {
      SenderReceiptSound(hash, m, s);
    }
  }

  lemma SenderReceiptSound(hash: Hash, m: Manifest, s: State)
    requires Sound(hash, m, s) && s.toSender != []
    ensures Sound(hash, m, SenderReceives(m, s.(toSender := s.toSender[1..]), s.toSender[0]))
  {
    hide Sound, Completed, SenderReceives;
    var t := s.(toSender := s.toSender[1..]);
    TakenOffSound(hash, m, s);
    AnswerMoves(hash, m, t, s.toSender[0]);
    AnswerSound(hash, m, t, SenderReceives(m, t, s.toSender[0]));
  }

  lemma TakenOffSound(hash: Hash, m: Manifest, s: State)
    requires Sound(hash, m, s) && s.toSender != []
    ensures Sound(hash, m, s.(toSender := s.toSender[1..]))
    ensures s.toSender[0].Ack? || !s.queued ==> Completed(hash, m, s.store)
  {
    hide SessionInStep, Delivered, Completed;
    assert s.toSender[0] in s.toSender;
    assert forall message :: message in s.toSender[1..] ==> message in s.toSender;
  }

  /** An answer moves the sender alone, offers nothing, and ends the transfer only on an acknowledgement. */
  ghost predicate SenderAlone(s: State, t: State) {
    && t.store == s.store && t.receiver == s.receiver && t.toSender == s.toSender
    && forall message :: message in t.toReceiver && message.Offer? ==> message in s.toReceiver
  }

  lemma AnswerMoves(hash: Hash, m: Manifest, s: State, message: Message)
    ensures SenderAlone(s, SenderReceives(m, s, message))
    ensures !SenderReceives(m, s, message).queued ==> !s.queued || message.Ack?
  {
    hide ValidCheckpoint, TerminalCheckpoint;
  }

  lemma AnswerSound(hash: Hash, m: Manifest, s: State, t: State)
    requires Sound(hash, m, s) && SenderAlone(s, t) && (!t.queued ==> Completed(hash, m, s.store))
    ensures Sound(hash, m, t)
  {
    hide SessionInStep, Delivered, Completed;
  }

  lemma PrepareSound(hash: Hash, m: Manifest, s: State)
    requires Separate(m) && ReceiverSound(hash, m, s)
    ensures var (store, r) := Prepare(hash, s.store, m);
            var s' := s.(store := store, receiver := if r.Ok? then Receiving(r.value) else Listening);
            ReceiverSound(hash, m, s') && (Completed(hash, m, s.store) ==> Completed(hash, m, store))
  {
    PrepareSucceedsIff(hash, s.store, m);
    if Delivered(hash, m, s.store.disk.files) {
      PrepareKeepsDelivered(hash, s.store, m);
    }
    var (store, r) := Prepare(hash, s.store, m);
    if r.Ok? && r.value.complete {
      NothingLeftIsDelivered(hash, m, store, r.value);
    }
  }

  lemma TakeChunkSound(hash: Hash, m: Manifest, s: State, chunk: Chunk)
    requires Separate(m) && ReceiverSound(hash, m, s) && s.receiver.Receiving?
    ensures var (store, session, r) := TakeChunk(hash, s.store, s.receiver.session, chunk);
            var s' := s.(store := store, receiver := if r.Ok? then AwaitingAck(session, r.value) else Listening);
            ReceiverSound(hash, m, s') && (Completed(hash, m, s.store) ==> store == s.store)
  {
    var session := s.receiver.session;
    ChunkKeepsInStep(hash, m, s.store, session, chunk);
    ChunkRecordsIncomplete(hash, s.store, session, chunk);
    hide TakeChunk, SessionInStep, AdmitChunk, Delivered;
  }

  lemma FinishSound(hash: Hash, m: Manifest, s: State, transferred: nat)
    requires Separate(m) && ReceiverSound(hash, m, s) && s.receiver.Receiving?
    ensures var (store, session, r) := Finish(s.store, s.receiver.session, transferred);
            var s' := s.(store := store, receiver := Listening);
            && ReceiverSound(hash, m, s') && (r.Ok? ==> Completed(hash, m, store))
            && (Completed(hash, m, s.store) ==> Completed(hash, m, store))
  {
    FinishAcknowledgedIff(hash, m, s.store, s.receiver.session, transferred);
    hide SessionInStep, Delivered;
  }

  lemma PoppedSound(hash: Hash, m: Manifest, s: State)
    requires Sound(hash, m, s) && s.toReceiver != []
    ensures Sound(hash, m, s.(toReceiver := s.toReceiver[1..]))
    ensures s.toReceiver[0].Offer? ==> s.toReceiver[0].manifest == m
  {
    hide SessionInStep, Delivered;
    assert s.toReceiver[0] in s.toReceiver;
    assert forall other :: other in s.toReceiver[1..] ==> other in s.toReceiver;
  }

  lemma ReplySound(hash: Hash, m: Manifest, s: State, message: Message)
    requires Sound(hash, m, s) && (message.Ack? ==> Completed(hash, m, s.store))
    ensures Sound(hash, m, SendToSender(s, message))
  {
    hide SessionInStep, Delivered;
  }

  /** A new store and receiver phase keep the invariant if they agree and completion is not undone. */
  lemma StoredSound(hash: Hash, m: Manifest, s: State, store: Store, receiver: ReceiverPhase)
    requires Sound(hash, m, s) && ReceiverSound(hash, m, s.(store := store, receiver := receiver))
    requires Completed(hash, m, s.store) ==> Completed(hash, m, store)
    ensures Sound(hash, m, s.(store := store, receiver := receiver))
  {
    hide ReceiverSound, Completed;
  }

  lemma ListensSound(hash: Hash, m: Manifest, s: State)
    requires Sound(hash, m, s)
    ensures Sound(hash, m, s.(receiver := Listening))
    ensures s.receiver.AwaitingAck? ==> Sound(hash, m, s.(receiver := Receiving(s.receiver.session)))
  {
    hide SessionInStep, Delivered;
  }

  lemma ReceiptSound(hash: Hash, m: Manifest, s: State, message: Message, policyAllows: bool, permitFree: bool)
    requires Separate(m) && Sound(hash, m, s) && (message.Offer? ==> message.manifest == m)
    ensures Sound(hash, m, ReceiverReceives(hash, m, s, message, policyAllows, permitFree))
  {
    hide ReceiverReceives, Sound, Separate;
    if s.receiver.Listening? && message.Offer? {
      OfferReceiptSound(hash, m, s, message, policyAllows, permitFree);
    } else if s.receiver.Receiving? && message.ChunkMessage? {
      ChunkReceiptSound(hash, m, s, message, policyAllows, permitFree);
    } else if s.receiver.Receiving? && message.Complete? {
      CompleteReceiptSound(hash, m, s, message, policyAllows, permitFree);
    } else {
      OtherReceiptSound(hash, m, s, message, policyAllows, permitFree);
    }
  }

  lemma OfferReceiptSound(hash: Hash, m: Manifest, s: State, message: Message, policyAllows: bool, permitFree: bool)
    requires Separate(m) && Sound(hash, m, s) && s.receiver.Listening? && message.Offer? && message.manifest == m
    ensures Sound(hash, m, ReceiverReceives(hash, m, s, message, policyAllows, permitFree))
  {
    hide Prepare, Sound, ReceiverSound, Completed, Separate, OfferedCheckpoint;
    SoundReceiver(hash, m, s);
    PrepareSound(hash, m, s);
    var (store, r) := Prepare(hash, s.store, m);
    var phase := if r.Ok? then Receiving(r.value) else Listening;
    StoredSound(hash, m, s, store, phase);
    ReplySound(hash, m, s.(store := store, receiver := phase), if r.Ok? then Accept(OfferedCheckpoint(r.value))
      else Cancel);
    ReplySound(hash, m, s, Reject);
  }

  lemma ChunkReceiptSound(hash: Hash, m: Manifest, s: State, message: Message, policyAllows: bool, permitFree: bool)
    requires Separate(m) && Sound(hash, m, s) && s.receiver.Receiving? && message.ChunkMessage?
    ensures Sound(hash, m, ReceiverReceives(hash, m, s, message, policyAllows, permitFree))
  {
    hide TakeChunk, Sound, ReceiverSound, Completed, Separate;
    SoundReceiver(hash, m, s);
    TakeChunkSound(hash, m, s, message.chunk);
    var (store, session, r) := TakeChunk(hash, s.store, s.receiver.session, message.chunk);
    var phase := if r.Ok? then AwaitingAck(session, r.value) else Listening;
    StoredSound(hash, m, s, store, phase);
    ReplySound(hash, m, s.(store := store, receiver := phase), if r.Ok? then CheckpointMessage(r.value) else Cancel);
  }

  lemma CompleteReceiptSound(hash: Hash, m: Manifest, s: State, message: Message, policyAllows: bool, permitFree: bool)
    requires Separate(m) && Sound(hash, m, s) && s.receiver.Receiving? && message.Complete?
    ensures Sound(hash, m, ReceiverReceives(hash, m, s, message, policyAllows, permitFree))
  {
    hide Finish, Sound, ReceiverSound, Completed, Separate;
    SoundReceiver(hash, m, s);
    FinishSound(hash, m, s, message.transferred);
    var (store, session, r) := Finish(s.store, s.receiver.session, message.transferred);
    StoredSound(hash, m, s, store, Listening);
    ReplySound(hash, m, s.(store := store, receiver := Listening), if r.Ok? then Ack(r.value) else Cancel);
  }

  lemma OtherReceiptSound(hash: Hash, m: Manifest, s: State, message: Message, policyAllows: bool, permitFree: bool)
    requires Separate(m) && Sound(hash, m, s)
    requires !(s.receiver.Listening? && message.Offer?)
             && !(s.receiver.Receiving? && (message.ChunkMessage? || message.Complete?))
    ensures Sound(hash, m, ReceiverReceives(hash, m, s, message, policyAllows, permitFree))
  {
    hide Sound, Separate;
    ListensSound(hash, m, s);
    ReplySound(hash, m, s, Cancel);
    ReplySound(hash, m, s, Reject);
    ReplySound(hash, m, s.(receiver := Listening), Cancel);
    if s.receiver.AwaitingAck? {
      AckedSound(hash, m, s);
    }
  }

  lemma SoundReceiver(hash: Hash, m: Manifest, s: State)
    requires Sound(hash, m, s)
    ensures ReceiverSound(hash, m, s)
  {
  }

  lemma AckedSound(hash: Hash, m: Manifest, s: State)
    requires Sound(hash, m, s) && s.receiver.AwaitingAck?
    ensures Sound(hash, m, s.(receiver := Receiving(s.receiver.session)))
  {
    hide SessionInStep, Delivered;
  }

  lemma ReceiverStepSound(hash: Hash, m: Manifest, s: State, policyAllows: bool, permitFree: bool)
    requires Separate(m) && Sound(hash, m, s)
    ensures Sound(hash, m, ReceiverStep(hash, m, s, policyAllows, permitFree))
  {
    hide Sound, Separate, ReceiverReceives;
    if s.toReceiver != [] {
      PoppedSound(hash, m, s);
      ReceiptSound(hash, m, s.(toReceiver := s.toReceiver[1..]), s.toReceiver[0], policyAllows, permitFree);
    }
  }

  lemma StepSound(hash: Hash, m: Manifest, s: State, a: Action)
    requires Separate(m) && Sound(hash, m, s)
    ensures Sound(hash, m, Step(hash, m, s, a))
  {
    match a
    case SenderActs => SenderStepSound(hash, m, s);
    case ReceiverActs(policyAllows, permitFree) => ReceiverStepSound(hash, m, s, policyAllows, permitFree);
    case ReceiverTimesOut =>
    case MessageLost(_, _) => hide SessionInStep, Delivered, Lost;
    case MessageOvertakes(_, _) => hide SessionInStep, Delivered, Overtaken;
    case Disconnect =>
    case SourceChanges(_) =>
    case CrashTearsDisk(_) =>
  }

  lemma {:induction false} RunSound(hash: Hash, m: Manifest, s: State, actions: seq<Action>)
    requires Separate(m) && Sound(hash, m, s)
    ensures Sound(hash, m, Run(hash, m, s, actions))
    decreases |actions|
  {
    if actions != [] {
      RunSound(hash, m, s, actions[..|actions| - 1]);
      StepSound(hash, m, Run(hash, m, s, actions[..|actions| - 1]), actions[|actions| - 1]);
    }
  }

  /**
   * Over every run, however often interrupted and retried, the sender gives up
   * its queue record only once the receiver holds every declared file with its
   * declared length and digest, and has recorded completion on disk.
   */
  lemma QueueRemovedOnlyWhenDelivered(hash: Hash, m: Manifest, sources: seq<Option<Bytes>>, actions: seq<Action>)
    requires Separate(m)
    ensures var s := Run(hash, m, Start(sources), actions);
            !s.queued ==> Completed(hash, m, s.store)
  {
    RunSound(hash, m, Start(sources), actions);
  }

  /** Over every run, whenever a session is open its checkpoint, its hasher, the disk and the record agree. */
  lemma OpenSessionsStayInStep(hash: Hash, m: Manifest, sources: seq<Option<Bytes>>, actions: seq<Action>)
    requires Separate(m)
    ensures var s := Run(hash, m, Start(sources), actions);
            !s.receiver.Listening? ==>
              && SessionInStep(hash, m, s.store, s.receiver.session)
              && s.store.record == Some(ReceiveState(m, s.receiver.session.checkpoint, s.receiver.session.complete))
  {
    RunSound(hash, m, Start(sources), actions);
  }
}
