/**
 * The two wire layouts of the clipboard: the snapshot encoding of
 * crates/clipboard/src/content.rs:242-356 and the update envelope of
 * crates/clipboard/src/sync.rs:56-113.
 *
 * `utf8` says which byte strings are valid MIME names; nothing below depends on
 * which ones are.
 */
module ClipboardCodec {
  import opened Wrappers
  import opened WireBytes
  import opened ClipboardContent
  import opened ConflictResolver

  const MAX_FORMATS: nat := 32
  const MAX_TOTAL_BYTES: nat := 64 * 1024 * 1024

  datatype ClipboardError =
    | TooLarge(size: nat, limit: nat)
    | Codec(message: string)
    | Compression(message: string)
    | Encryption(message: string)
    | ClockExhaustedError

  type Utf8 = Bytes -> bool

  // ---------------------------------------------------------------- fields

  function Field(b: Bytes): (r: Bytes)
    requires |b| <= U32_MAX
    ensures |r| == 4 + |b|
  {
    Be32(|b|) + b
  }

  function ReadField(buf: Bytes, max: nat): Result<(Bytes, Bytes), ClipboardError> {
    if |buf| < 4 then Err(Codec("truncated length"))
    else
      var len, rest := Value(buf[..4]), buf[4..];
      if len > max || len > |rest| then Err(Codec("field length out of range"))
      else Ok((rest[..len], rest[len..]))
  }

  /** A field is read exactly from the bytes it was written as, if it is within the bound. */
  lemma ReadFieldInverts(buf: Bytes, max: nat, b: Bytes, rest: Bytes)
    ensures ReadField(buf, max) == Ok((b, rest)) <==> |b| <= max && |b| <= U32_MAX && buf == Field(b) + rest
  {
    if |b| <= U32_MAX && buf == Field(b) + rest {
      assert buf[..4] == Be32(|b|);
      assert buf[4..] == b + rest;
    }
    if ReadField(buf, max) == Ok((b, rest)) {
      Be32OfValue(buf[..4]);
      assert buf == buf[..4] + buf[4..];
      assert buf[4..] == b + rest;
      assert buf == Field(b) + rest;
    }
  }

  // ---------------------------------------------------------------- snapshots

  function DataBytes(formats: seq<Content>): nat {
    if formats == [] then 0 else |formats[0].data| + DataBytes(formats[1..])
  }

  function EncodeFormats(formats: seq<Content>): Result<Bytes, ClipboardError> {
    if formats == [] then Ok([])
    else
      var c := formats[0];
      if |c.mime| > U32_MAX then Err(TooLarge(|c.mime|, U32_MAX))
      else if |c.data| > U32_MAX then Err(TooLarge(|c.data|, U32_MAX))
      else
        match EncodeFormats(formats[1..])
        case Err(error) => Err(error)
        case Ok(rest) => Ok(Field(c.mime) + Field(c.data) + rest)
  }

  function Encode(s: Snapshot): Result<Bytes, ClipboardError> {
    if |s| > MAX_FORMATS then Err(TooLarge(|s|, MAX_FORMATS))
    else if DataBytes(s) > MAX_TOTAL_BYTES then Err(TooLarge(DataBytes(s), MAX_TOTAL_BYTES))
    else
      match EncodeFormats(s)
      case Err(error) => Err(error)
      case Ok(body) => Ok(Be32(|s|) + body)
  }

  /** One representation, `running` data bytes into the snapshot, and the bytes after it. */
  function ReadContent(utf8: Utf8, buf: Bytes, running: nat): Result<(Content, Bytes), ClipboardError> {
    match ReadField(buf, MAX_TOTAL_BYTES)
    case Err(error) => Err(error)
    case Ok((mime, afterMime)) =>
      match ReadField(afterMime, MAX_TOTAL_BYTES)
      case Err(error) => Err(error)
      case Ok((data, afterData)) =>
        if running + |data| > MAX_TOTAL_BYTES then Err(TooLarge(running + |data|, MAX_TOTAL_BYTES))
        else if !utf8(mime) then Err(Codec("non-utf8 mime"))
        else Ok((Content(mime, data), afterData))
  }

  function DecodeFormats(utf8: Utf8, buf: Bytes, count: nat, running: nat): Result<(seq<Content>, Bytes),
      ClipboardError>
    decreases count
  {
    if count == 0 then Ok(([], buf))
    else
      match ReadContent(utf8, buf, running)
      case Err(error) => Err(error)
      case Ok((c, afterContent)) =>
        match DecodeFormats(utf8, afterContent, count - 1, running + |c.data|)
        case Err(error) => Err(error)
        case Ok((formats, rest)) => Ok(([c] + formats, rest))
  }

  /** The representations in wire order, before they are made canonical. */
  function DecodeList(utf8: Utf8, buf: Bytes): Result<seq<Content>, ClipboardError> {
    if |buf| < 4 then Err(Codec("truncated header"))
    else
      var count := Value(buf[..4]);
      if count > MAX_FORMATS then Err(TooLarge(count, MAX_FORMATS))
      else
        match DecodeFormats(utf8, buf[4..], count, 0)
        case Err(error) => Err(error)
        case Ok((formats, rest)) => if rest != [] then Err(Codec("trailing bytes")) else Ok(formats)
  }

  function Decode(utf8: Utf8, buf: Bytes): Result<Snapshot, ClipboardError> {
    match DecodeList(utf8, buf)
    case Err(error) => Err(error)
    case Ok(formats) => Ok(CanonicalForm(formats))
  }

  // ---------------------------------------------------------------- round trips

  /** MIME names are strings, so they are always valid here. */
  ghost predicate NamesValid(utf8: Utf8, formats: seq<Content>) {
    forall c :: c in formats ==> utf8(c.mime)
  }

  /** The decoder's bound on a MIME name, which the encoder does not have. */
  predicate NamesFit(formats: seq<Content>) {
    forall c :: c in formats ==> |c.mime| <= MAX_TOTAL_BYTES
  }

  /** The bounds under which the decoder takes a list, `running` data bytes into a snapshot. */
  ghost predicate Within(utf8: Utf8, formats: seq<Content>, running: nat) {
    NamesValid(utf8, formats) && NamesFit(formats) && running + DataBytes(formats) <= MAX_TOTAL_BYTES
  }

  predicate StartsWith(buf: Bytes, head: Bytes) {
    |head| <= |buf| && buf[..|head|] == head
  }

  predicate EncodesTo(formats: seq<Content>, buf: Bytes, rest: Bytes) {
    EncodeFormats(formats).Ok? && buf == EncodeFormats(formats).value + rest
  }

  lemma WithinStep(utf8: Utf8, c: Content, tail: seq<Content>, running: nat)
    ensures Within(utf8, [c] + tail, running) <==>
            |c.mime| <= MAX_TOTAL_BYTES && utf8(c.mime) && running + |c.data| <= MAX_TOTAL_BYTES
            && Within(utf8, tail, running + |c.data|)
  {
    var formats := [c] + tail;
    assert formats[1..] == tail;
    assert forall d :: d in formats <==> d == c || d in tail;
  }

  lemma EncodeStep(c: Content, tail: seq<Content>, buf: Bytes, rest: Bytes)
    ensures EncodesTo([c] + tail, buf, rest) <==>
            && |c.mime| <= U32_MAX && |c.data| <= U32_MAX
            && var head := Field(c.mime) + Field(c.data);
               StartsWith(buf, head) && EncodesTo(tail, buf[|head|..], rest)
  {
    hide Field;
    assert ([c] + tail)[1..] == tail;
    if |c.mime| <= U32_MAX && |c.data| <= U32_MAX && EncodeFormats(tail).Ok? {
      var head, body := Field(c.mime) + Field(c.data), EncodeFormats(tail).value;
      assert head + body + rest == head + (body + rest);
      SplitHead(buf, head, body + rest);
    }
  }

  predicate DecodesTo(utf8: Utf8, buf: Bytes, running: nat, formats: seq<Content>, rest: Bytes) {
    DecodeFormats(utf8, buf, |formats|, running) == Ok((formats, rest))
  }

  /**
   * The decoder reads a list exactly from the bytes the encoder writes for it, when names and sizes are within its
   * bounds.
   */
  lemma {:induction false} DecodeFormatsInverts(utf8: Utf8, buf: Bytes, running: nat, formats: seq<Content>,
                                                rest: Bytes)
    requires running <= MAX_TOTAL_BYTES
    ensures DecodesTo(utf8, buf, running, formats, rest) <==>
              Within(utf8, formats, running) && EncodesTo(formats, buf, rest)
    decreases |formats|
  {
    hide DecodesTo, EncodesTo, Within, Field;
    if formats == [] {
      EmptyListInverts(utf8, buf, running, rest);
    } else {
      var c, tail := formats[0], formats[1..];
      assert formats == [c] + tail;
      DecodeStep(utf8, buf, running, c, tail, rest);
      EncodeStep(c, tail, buf, rest);
      WithinStep(utf8, c, tail, running);
      if |c.mime| <= MAX_TOTAL_BYTES && running + |c.data| <= MAX_TOTAL_BYTES
        && StartsWith(buf, Field(c.mime) + Field(c.data)) {
        DecodeFormatsInverts(utf8, buf[|Field(c.mime) + Field(c.data)|..], running + |c.data|, tail, rest);
      }
    }
  }

  lemma EmptyListInverts(utf8: Utf8, buf: Bytes, running: nat, rest: Bytes)
    requires running <= MAX_TOTAL_BYTES
    ensures DecodesTo(utf8, buf, running, [], rest) <==> Within(utf8, [], running) && EncodesTo([], buf, rest)
  {
    assert [] + rest == rest;
  }

  lemma SplitHead(buf: Bytes, head: Bytes, rest: Bytes)
    ensures buf == head + rest <==> |head| <= |buf| && buf[..|head|] == head && buf[|head|..] == rest
  {
    if |head| <= |buf| {
      assert buf == buf[..|head|] + buf[|head|..];
    }
  }

  /** A representation is read exactly from its two fields, within the bounds. */
  lemma ReadContentInverts(utf8: Utf8, buf: Bytes, running: nat, c: Content, rest: Bytes)
    ensures ReadContent(utf8, buf, running) == Ok((c, rest)) <==>
            && |c.mime| <= MAX_TOTAL_BYTES && |c.data| <= MAX_TOTAL_BYTES && running + |c.data| <= MAX_TOTAL_BYTES
            && utf8(c.mime)
            && var head := Field(c.mime) + Field(c.data);
               StartsWith(buf, head) && buf[|head|..] == rest
  {
    hide Field, ReadField;
    if |c.mime| <= MAX_TOTAL_BYTES && |c.data| <= MAX_TOTAL_BYTES {
      var f1, f2 := Field(c.mime), Field(c.data);
      SplitHead(buf, f1 + f2, rest);
      assert f1 + f2 + rest == f1 + (f2 + rest);
      ReadFieldInverts(buf, MAX_TOTAL_BYTES, c.mime, f2 + rest);
      ReadFieldInverts(f2 + rest, MAX_TOTAL_BYTES, c.data, rest);
    }
    if ReadContent(utf8, buf, running) == Ok((c, rest)) {
      var afterMime := ReadField(buf, MAX_TOTAL_BYTES).value.1;
      ReadFieldInverts(buf, MAX_TOTAL_BYTES, c.mime, afterMime);
      ReadFieldInverts(afterMime, MAX_TOTAL_BYTES, c.data, rest);
    }
  }

  /** One step of decoding a list. */
  lemma DecodeStep(utf8: Utf8, buf: Bytes, running: nat, c: Content, tail: seq<Content>, rest: Bytes)
    ensures DecodesTo(utf8, buf, running, [c] + tail, rest) <==>
            && |c.mime| <= MAX_TOTAL_BYTES && |c.data| <= MAX_TOTAL_BYTES && running + |c.data| <= MAX_TOTAL_BYTES
            && utf8(c.mime)
            && var head := Field(c.mime) + Field(c.data);
               && StartsWith(buf, head)
               && DecodesTo(utf8, buf[|head|..], running + |c.data|, tail, rest)
  {
    hide Field, ReadContent, StartsWith;
    if |c.mime| <= MAX_TOTAL_BYTES && |c.data| <= MAX_TOTAL_BYTES && StartsWith(buf, Field(c.mime) + Field(c.data)) {
      assert |Field(c.mime) + Field(c.data)| <= |buf| by { StartsWithShorter(buf, Field(c.mime) + Field(c.data)); }
      ReadContentInverts(utf8, buf, running, c, buf[|Field(c.mime) + Field(c.data)|..]);
    }
    if DecodesTo(utf8, buf, running, [c] + tail, rest) {
      var (d, afterContent) := ReadContent(utf8, buf, running).value;
      ReadContentInverts(utf8, buf, running, d, afterContent);
      var (formats, after) := DecodeFormats(utf8, afterContent, |tail|, running + |d.data|).value;
      assert ([d] + formats)[0] == ([c] + tail)[0];
      assert ([d] + formats)[1..] == formats && ([c] + tail)[1..] == tail;
    }
  }

  lemma StartsWithShorter(buf: Bytes, head: Bytes)
    requires StartsWith(buf, head)
    ensures |head| <= |buf|
  {
  }

  lemma {:induction false} DecodeFormatsCount(utf8: Utf8, buf: Bytes, count: nat, running: nat)
    requires DecodeFormats(utf8, buf, count, running).Ok?
    ensures |DecodeFormats(utf8, buf, count, running).value.0| == count
    decreases count
  {
    hide ReadContent;
    if count > 0 {
      var (c, afterContent) := ReadContent(utf8, buf, running).value;
      DecodeFormatsCount(utf8, afterContent, count - 1, running + |c.data|);
    }
  }

  /** Decoding a list is the exact inverse of encoding it, wherever the decoder's bounds hold. */
  lemma DecodeListInverts(utf8: Utf8, buf: Bytes, formats: seq<Content>)
    ensures DecodeList(utf8, buf) == Ok(formats) <==>
              NamesValid(utf8, formats) && NamesFit(formats) && Encode(formats) == Ok(buf)
  {
    hide DecodeFormats, EncodeFormats, NamesValid, NamesFit, Value, Be32;
    if |formats| <= MAX_FORMATS && |buf| >= 4 {
      DecodeFormatsInverts(utf8, buf[4..], 0, formats, []);
      Be32OfValue(buf[..4]);
      assert buf == buf[..4] + buf[4..];
      if EncodeFormats(formats).Ok? {
        var body := EncodeFormats(formats).value;
        assert body + [] == body;
        SplitHead(buf, Be32(|formats|), body);
      }
    }
    if DecodeList(utf8, buf).Ok? {
      DecodeFormatsCount(utf8, buf[4..], Value(buf[..4]), 0);
    }
  }

  /** The round trip of a snapshot: it holds exactly when no MIME name is longer than the decoder's field bound. */
  lemma SnapshotRoundTripIff(utf8: Utf8, s: Snapshot)
    requires Canonical(s) && NamesValid(utf8, s) && Encode(s).Ok?
    ensures Decode(utf8, Encode(s).value) == Ok(s) <==> NamesFit(s)
    ensures Decode(utf8, Encode(s).value).Ok? <==> NamesFit(s)
  {
    hide Encode, DecodeList, NamesFit;
    var buf := Encode(s).value;
    DecodeListInverts(utf8, buf, s);
    CanonicalFormOfCanonical(s);
    if DecodeList(utf8, buf).Ok? {
      var formats := DecodeList(utf8, buf).value;
      DecodeListInverts(utf8, buf, formats);
      EncodeIsInjective(formats, s);
    }
  }

  /** Two lists with one encoding are one list. */
  lemma {:induction false} EncodeFormatsIsInjective(a: seq<Content>, b: seq<Content>)
    requires |a| == |b| && EncodeFormats(a).Ok? && EncodeFormats(a) == EncodeFormats(b)
    ensures a == b
  {
    hide Field;
    if a != [] {
      hide EncodeFormats;
      EncodedHead(a);
      EncodedHead(b);
      var restA, restB := EncodeFormats(a[1..]).value, EncodeFormats(b[1..]).value;
      FieldPrefix(a[0].mime, Field(a[0].data) + restA, b[0].mime, Field(b[0].data) + restB);
      FieldPrefix(a[0].data, restA, b[0].data, restB);
      EncodeFormatsIsInjective(a[1..], b[1..]);
      assert a == [a[0]] + a[1..] && b == [b[0]] + b[1..];
    }
  }

  lemma EncodedHead(a: seq<Content>)
    requires a != [] && EncodeFormats(a).Ok?
    ensures EncodeFormats(a[1..]).Ok? && |a[0].mime| <= U32_MAX && |a[0].data| <= U32_MAX
    ensures EncodeFormats(a).value == Field(a[0].mime) + (Field(a[0].data) + EncodeFormats(a[1..]).value)
  {
    hide Field;
    var rest := EncodeFormats(a[1..]).value;
    assert Field(a[0].mime) + Field(a[0].data) + rest == Field(a[0].mime) + (Field(a[0].data) + rest);
  }

  lemma FieldPrefix(a: Bytes, restA: Bytes, b: Bytes, restB: Bytes)
    requires |a| <= U32_MAX && |b| <= U32_MAX && Field(a) + restA == Field(b) + restB
    ensures a == b && restA == restB
  {
    ReadFieldInverts(Field(a) + restA, U32_MAX, a, restA);
    ReadFieldInverts(Field(b) + restB, U32_MAX, b, restB);
  }

  lemma EncodeIsInjective(a: seq<Content>, b: seq<Content>)
    requires Encode(a).Ok? && Encode(a) == Encode(b)
    ensures a == b
  {
    hide EncodeFormats, DataBytes;
    var bodyA, bodyB := EncodeFormats(a).value, EncodeFormats(b).value;
    var buf := Encode(a).value;
    SplitHead(buf, Be32(|a|), bodyA);
    SplitHead(buf, Be32(|b|), bodyB);
    assert Value(Be32(|a|)) == Value(Be32(|b|));
    EncodeFormatsIsInjective(a, b);
  }

  /** A snapshot with a valid MIME name of 64 MiB + 1 bytes and no data encodes, and its encoding is refused. */
  lemma LongNameIsRefused(utf8: Utf8, name: Bytes)
    requires |name| == MAX_TOTAL_BYTES + 1 && utf8(name)
    ensures var s := [Content(name, [])]; Canonical(s) && Encode(s).Ok? && Decode(utf8, Encode(s).value).Err?
  {
    var c := Content(name, []);
    var s := [c];
    assert c in s && !NamesFit(s);
    hide Encode, Decode, NamesFit;
    assert Encode(s).Ok? by { EncodeSingle(c); }
    SnapshotRoundTripIff(utf8, s);
  }

  lemma EncodeSingle(c: Content)
    requires |c.mime| <= U32_MAX && c.data == []
    ensures Encode([c]).Ok?
  {
    var s := [c];
    assert s[1..] == [];
    assert EncodeFormats(s[1..]) == Ok([]);
    assert EncodeFormats(s).Ok?;
    assert DataBytes(s) == 0;
  }

  /** Whatever bytes arrive, an accepted snapshot is canonical, within every bound, and survives being sent on. */
  lemma DecodedIsSound(utf8: Utf8, buf: Bytes)
    requires Decode(utf8, buf).Ok?
    ensures var s := Decode(utf8, buf).value;
            Canonical(s) && NamesValid(utf8, s) && NamesFit(s) && Encode(s).Ok?
            && Decode(utf8, Encode(s).value) == Ok(s)
  {
    var formats := DecodeList(utf8, buf).value;
    DecodeListInverts(utf8, buf, formats);
    var s := CanonicalForm(formats);
    CanonicalFormIsCanonical(formats);
    forall c | c in s ensures c in formats {
      FirstOfCanonical(s, c);
    }
    CanonicalFormSmaller(formats);
    FieldsFitEncode(s);
    hide Encode, Decode, CanonicalForm, DecodeList;
    SnapshotRoundTripIff(utf8, s);
  }

  lemma {:induction false} DataBytesInsert(s: seq<Content>, c: Content, k: nat)
    requires k <= |s|
    ensures DataBytes(s[..k] + [c] + s[k..]) == DataBytes(s) + |c.data|
  {
    var t := s[..k] + [c] + s[k..];
    if k == 0 {
      assert t[1..] == s;
    } else {
      assert t[1..] == s[1..][..k - 1] + [c] + s[1..][k - 1..];
      DataBytesInsert(s[1..], c, k - 1);
    }
  }

  /** Dropping duplicates never adds formats or data. */
  lemma {:induction false} CanonicalFormSmaller(formats: seq<Content>)
    ensures |CanonicalForm(formats)| <= |formats| && DataBytes(CanonicalForm(formats)) <= DataBytes(formats)
  {
    if formats != [] {
      var init, c := formats[..|formats| - 1], formats[|formats| - 1];
      CanonicalFormSmaller(init);
      DataBytesInsert(init, c, |init|);
      assert init[..|init|] + [c] + init[|init|..] == formats;
      var s := CanonicalForm(init);
      DataBytesInsert(s, c, InsertionPoint(s, c.mime));
    }
  }

  lemma {:induction false} FieldsFitEncode(s: seq<Content>)
    requires NamesFit(s) && DataBytes(s) <= MAX_TOTAL_BYTES
    ensures EncodeFormats(s).Ok?
  {
    if s != [] {
      assert s[0] in s;
      assert forall c :: c in s[1..] ==> c in s;
      FieldsFitEncode(s[1..]);
    }
  }

  /**
   * Accepted bytes are the encoding of what they decode to exactly when their representations came in canonical
   * order.
   */
  lemma AcceptedBytesAreCanonicalIff(utf8: Utf8, buf: Bytes)
    requires Decode(utf8, buf).Ok?
    ensures Encode(Decode(utf8, buf).value) == Ok(buf) <==> Canonical(DecodeList(utf8, buf).value)
  {
    var formats := DecodeList(utf8, buf).value;
    DecodeListInverts(utf8, buf, formats);
    CanonicalFormOfCanonical(formats);
    hide Encode, DecodeList, CanonicalForm;
    if Encode(CanonicalForm(formats)) == Ok(buf) {
      EncodeIsInjective(CanonicalForm(formats), formats);
    }
  }

  // ---------------------------------------------------------------- the buffer loops

  /** Bytes already written, followed by what is still to be written. */
  function Written(body: Bytes, rest: Result<Bytes, ClipboardError>): Result<Bytes, ClipboardError> {
    match rest
    case Err(error) => Err(error)
    case Ok(bytes) => Ok(body + bytes)
  }

  method EncodeSnapshot(s: Snapshot) returns (r: Result<Bytes, ClipboardError>)
    ensures r == Encode(s)
  {
    if |s| > MAX_FORMATS {
      return Err(TooLarge(|s|, MAX_FORMATS));
    }
    var total := DataBytes(s);
    if total > MAX_TOTAL_BYTES {
      return Err(TooLarge(total, MAX_TOTAL_BYTES));
    }
    Widths();
    var buf := new ByteBuffer([]);
    buf.PutInt(|s|, 4);
    ghost var body: Bytes := [];
    assert s[0..] == s;
    assert Written([], EncodeFormats(s)) == EncodeFormats(s) by {
      if EncodeFormats(s).Ok? { assert [] + EncodeFormats(s).value == EncodeFormats(s).value; }
    }
    assert Be32(|s|) + body == Be32(|s|);
    for n := 0 to |s|
      invariant fresh(buf)
      invariant buf.content == Be32(|s|) + body
      invariant EncodeFormats(s) == Written(body, EncodeFormats(s[n..]))
    {
      var c := s[n];
      assert s[n..][0] == c && s[n..][1..] == s[n + 1..];
      if |c.mime| > U32_MAX {
        return Err(TooLarge(|c.mime|, U32_MAX));
      }
      if |c.data| > U32_MAX {
        return Err(TooLarge(|c.data|, U32_MAX));
      }
      buf.PutInt(|c.mime|, 4);
      buf.PutSlice(c.mime);
      buf.PutInt(|c.data|, 4);
      buf.PutSlice(c.data);
      WrittenStep(Be32(|s|), body, Be32(|c.mime|), c.mime, Be32(|c.data|), c.data, EncodeFormats(s[n + 1..]));
      body := body + (Field(c.mime) + Field(c.data));
    }
    assert EncodeFormats(s[|s|..]) == Ok([]);
    assert body + [] == body;
    return Ok(buf.content);
  }

  lemma WrittenStep(header: Bytes, body: Bytes, f1: Bytes, f2: Bytes, f3: Bytes, f4: Bytes, rest: Result<Bytes,
                    ClipboardError>)
    ensures header + body + f1 + f2 + f3 + f4 == header + (body + ((f1 + f2) + (f3 + f4)))
    ensures Written(body, Written((f1 + f2) + (f3 + f4), rest)) == Written(body + ((f1 + f2) + (f3 + f4)), rest)
  {
    if rest.Ok? {
      assert body + (((f1 + f2) + (f3 + f4)) + rest.value) == (body + ((f1 + f2) + (f3 + f4))) + rest.value;
    }
  }

  method ReadFieldFrom(buf: ByteBuffer, max: nat) returns (r: Result<Bytes, ClipboardError>)
    modifies buf
    ensures match ReadField(old(buf.content), max)
            case Err(error) => r == Err(error)
            case Ok((field, rest)) => r == Ok(field) && buf.content == rest
  {
    if |buf.content| < 4 {
      return Err(Codec("truncated length"));
    }
    var len := buf.GetInt(4);
    if len > max || len > |buf.content| {
      return Err(Codec("field length out of range"));
    }
    var field := buf.SplitTo(len);
    return Ok(field);
  }

  method ReadContentFrom(utf8: Utf8, buf: ByteBuffer, running: nat) returns (r: Result<Content, ClipboardError>)
    modifies buf
    ensures match ReadContent(utf8, old(buf.content), running)
            case Err(error) => r == Err(error)
            case Ok((c, rest)) => r == Ok(c) && buf.content == rest
  {
    hide ReadField;
    var mime := ReadFieldFrom(buf, MAX_TOTAL_BYTES);
    if mime.Err? {
      return Err(mime.error);
    }
    var data := ReadFieldFrom(buf, MAX_TOTAL_BYTES);
    if data.Err? {
      return Err(data.error);
    }
    if running + |data.value| > MAX_TOTAL_BYTES {
      return Err(TooLarge(running + |data.value|, MAX_TOTAL_BYTES));
    }
    if !utf8(mime.value) {
      return Err(Codec("non-utf8 mime"));
    }
    return Ok(Content(mime.value, data.value));
  }

  /** Representations already read, followed by the result of reading the rest. */
  function Read(formats: seq<Content>, rest: Result<(seq<Content>, Bytes), ClipboardError>): Result<(seq<Content>,
      Bytes), ClipboardError> {
    match rest
    case Err(error) => Err(error)
    case Ok((more, after)) => Ok((formats + more, after))
  }

  lemma ReadStep(formats: seq<Content>, c: Content, rest: Result<(seq<Content>, Bytes), ClipboardError>)
    ensures Read(formats, Read([c], rest)) == Read(formats + [c], rest)
  {
    if rest.Ok? {
      assert formats + ([c] + rest.value.0) == (formats + [c]) + rest.value.0;
    }
  }

  /** The loop that reads `count` representations. */
  method ReadContents(utf8: Utf8, buf: ByteBuffer, count: nat) returns (r: Result<seq<Content>, ClipboardError>)
    modifies buf
    ensures match DecodeFormats(utf8, old(buf.content), count, 0)
            case Err(error) => r == Err(error)
            case Ok((formats, rest)) => r == Ok(formats) && buf.content == rest
  {
    hide ReadContent;
    var formats: seq<Content>, running: nat := [], 0;
    ghost var whole := DecodeFormats(utf8, buf.content, count, 0);
    assert whole == Read([], whole) by {
      if whole.Ok? { assert [] + whole.value.0 == whole.value.0; }
    }
    for n := 0 to count
      invariant whole == Read(formats, DecodeFormats(utf8, buf.content, count - n, running))
    {
      var c := ReadContentFrom(utf8, buf, running);
      if c.Err? {
        return Err(c.error);
      }
      running := running + |c.value.data|;
      ReadStep(formats, c.value, DecodeFormats(utf8, buf.content, count - n - 1, running));
      formats := formats + [c.value];
    }
    assert formats + [] == formats;
    return Ok(formats);
  }

  method DecodeSnapshot(utf8: Utf8, bytes: Bytes) returns (r: Result<Snapshot, ClipboardError>)
    ensures r == Decode(utf8, bytes)
  {
    hide DecodeFormats, CanonicalForm, Value;
    var buf := new ByteBuffer(bytes);
    if |bytes| < 4 {
      return Err(Codec("truncated header"));
    }
    var count := buf.GetInt(4);
    if count > MAX_FORMATS {
      return Err(TooLarge(count, MAX_FORMATS));
    }
    var formats := ReadContents(utf8, buf, count);
    if formats.Err? {
      return Err(formats.error);
    }
    if buf.content != [] {
      return Err(Codec("trailing bytes"));
    }
    var s := NewSnapshot(formats.value);
    return Ok(s);
  }

  // ---------------------------------------------------------------- the update envelope

  datatype Algorithm = Verbatim | Deflate

  datatype ClipboardUpdate = ClipboardUpdate(origin: DeviceId, seq_: u64, atMillis: u64, compression: Algorithm,
                                             payload: Bytes)

  const UPDATE_HEADER_LEN: nat := 16 + 8 + 8 + 1 + 4

  function Tag(a: Algorithm): byte {
    match a
    case Verbatim => 0
    case Deflate => 1
  }

  function FromTag(b: byte): Result<Algorithm, ClipboardError> {
    if b == 0 then Ok(Verbatim)
    else if b == 1 then Ok(Deflate)
    else Err(Codec("unknown compression algorithm"))
  }

  function Be64(n: u64): (r: Bytes)
    ensures |r| == 8 && Value(r) == n as nat
  {
    Widths();
    ValueOfBigEndian(n as nat, 8);
    BigEndian(n as nat, 8)
  }

  function Be128(n: DeviceId): (r: Bytes)
    ensures |r| == 16 && Value(r) == n
  {
    Widths();
    ValueOfBigEndian(n, 16);
    BigEndian(n, 16)
  }

  function Value64(b: Bytes): (n: u64)
    requires |b| == 8
    ensures Be64(n) == b
  {
    Widths();
    BigEndianOfValue(b);
    Value(b) as u64
  }

  function Value128(b: Bytes): (n: DeviceId)
    requires |b| == 16
    ensures Be128(n) == b
  {
    Widths();
    BigEndianOfValue(b);
    Value(b)
  }

  function EncodeUpdate(u: ClipboardUpdate): Result<Bytes, ClipboardError> {
    if |u.payload| > U32_MAX then Err(TooLarge(|u.payload|, U32_MAX))
    else Ok(Be128(u.origin) + Be64(u.seq_) + Be64(u.atMillis) + [Tag(u.compression)] + Be32(|u.payload|) + u.payload)
  }

  function DecodeUpdate(b: Bytes): Result<ClipboardUpdate, ClipboardError> {
    if |b| < UPDATE_HEADER_LEN then Err(Codec("truncated update header"))
    else
      match FromTag(b[32])
      case Err(error) => Err(error)
      case Ok(compression) =>
        if Value(b[33..37]) != |b[37..]| then Err(Codec("payload length mismatch"))
        else Ok(ClipboardUpdate(Value128(b[..16]), Value64(b[16..24]), Value64(b[24..32]), compression, b[37..]))
  }

  /**
   * Decoding an update is the exact inverse of encoding it: it accepts only bytes that re-encode to themselves, and
   * all of them.
   */
  lemma UpdateDecodeInverts(u: ClipboardUpdate, b: Bytes)
    ensures DecodeUpdate(b) == Ok(u) <==> EncodeUpdate(u) == Ok(b)
  {
    hide Value, Be32, Be64, Be128, BigEndian;
    if EncodeUpdate(u) == Ok(b) {
      HeaderSlices(Be128(u.origin), Be64(u.seq_), Be64(u.atMillis), [Tag(u.compression)], Be32(|u.payload|), u.payload);
      assert Value(Be128(Value128(b[..16]))) == Value(Be128(u.origin));
      assert Value(Be64(Value64(b[16..24]))) == Value(Be64(u.seq_));
      assert Value(Be64(Value64(b[24..32]))) == Value(Be64(u.atMillis));
    }
    if DecodeUpdate(b) == Ok(u) {
      Be32OfValue(b[33..37]);
      assert b == b[..16] + b[16..24] + b[24..32] + [b[32]] + b[33..37] + b[37..];
    }
  }

  lemma HeaderSlices(origin: Bytes, seq_: Bytes, at: Bytes, tag: Bytes, len: Bytes, payload: Bytes)
    requires |origin| == 16 && |seq_| == 8 && |at| == 8 && |tag| == 1 && |len| == 4
    ensures var b := origin + seq_ + at + tag + len + payload;
            && |b| == 37 + |payload| && b[..16] == origin && b[16..24] == seq_ && b[24..32] == at
            && b[32] == tag[0] && b[33..37] == len && b[37..] == payload
  {
  }

  method WriteUpdate(u: ClipboardUpdate) returns (r: Result<Bytes, ClipboardError>)
    ensures r == EncodeUpdate(u)
  {
    if |u.payload| > U32_MAX {
      return Err(TooLarge(|u.payload|, U32_MAX));
    }
    Widths();
    var buf := new ByteBuffer([]);
    buf.PutInt(u.origin, 16);
    buf.PutInt(u.seq_ as nat, 8);
    buf.PutInt(u.atMillis as nat, 8);
    buf.PutSlice([Tag(u.compression)]);
    buf.PutInt(|u.payload|, 4);
    buf.PutSlice(u.payload);
    assert [] + Be128(u.origin) == Be128(u.origin);
    return Ok(buf.content);
  }

  method ReadUpdate(bytes: Bytes) returns (r: Result<ClipboardUpdate, ClipboardError>)
    ensures r == DecodeUpdate(bytes)
  {
    hide Value, FromTag, BigEndian;
    if |bytes| < UPDATE_HEADER_LEN {
      return Err(Codec("truncated update header"));
    }
    var buf := new ByteBuffer(bytes);
    var origin := buf.SplitTo(16);
    var seq_ := buf.SplitTo(8);
    var at := buf.SplitTo(8);
    var tag := buf.SplitTo(1);
    var len := buf.GetInt(4);
    HeaderFields(bytes);
    var compression := FromTag(tag[0]);
    if compression.Err? {
      return Err(compression.error);
    }
    if len != |buf.content| {
      return Err(Codec("payload length mismatch"));
    }
    return Ok(ClipboardUpdate(Value128(origin), Value64(seq_), Value64(at), compression.value, buf.content));
  }

  /** Taking fields off the front one after another reads them at their places. */
  lemma HeaderFields(bytes: Bytes)
    requires |bytes| >= 37
    ensures bytes[16..][..8] == bytes[16..24] && bytes[16..][8..] == bytes[24..]
    ensures bytes[24..][..8] == bytes[24..32] && bytes[24..][8..] == bytes[32..]
    ensures bytes[32..][..1][0] == bytes[32] && bytes[32..][1..] == bytes[33..]
    ensures bytes[33..][..4] == bytes[33..37] && bytes[33..][4..] == bytes[37..]
  {
  }
}
