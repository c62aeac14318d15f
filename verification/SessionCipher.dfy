/**
 * Sealing and opening under message ids: the id-framed cipher of
 * crates/clipboard/src/cipher.rs:60-131 over the sliding replay window of
 * crates/crypto/src/session.rs:138-207.
 *
 * The authenticated encryption itself is a pair of functions of the id and the
 * bytes; all that is used of it is that opening what was sealed under an id gives it back.
 */
module SessionCipher {
  import opened Wrappers
  import opened WireBytes
  import opened ConflictResolver
  import opened ClipboardCodec

  const WINDOW: nat := 128

  // ---------------------------------------------------------------- the replay window

  /** The highest accepted id, and a 128-bit word whose bit `k` stands for the id `k` below it. */
  datatype ReplayWindow = ReplayWindow(highest: Option<u64>, seen: seq<bool>)

  function Zeros(n: nat): (r: seq<bool>)
    ensures |r| == n && forall k :: 0 <= k < n ==> !r[k]
  {
    if n == 0 then [] else [false] + Zeros(n - 1)
  }

  function EmptyWindow(): ReplayWindow {
    ReplayWindow(None, Zeros(WINDOW))
  }

  /** A 128-bit word moved `n` places up, losing what leaves it. */
  function ShiftLeft(bits: seq<bool>, n: nat): (r: seq<bool>)
    requires |bits| == WINDOW
    ensures |r| == WINDOW && forall k :: 0 <= k < WINDOW ==> (r[k] <==> n <= k && bits[k - n])
  {
    if n >= WINDOW then Zeros(WINDOW) else Zeros(n) + bits[..WINDOW - n]
  }

  /** Accept or refuse an id that has just been authenticated. */
  function CheckAndMark(w: ReplayWindow, id: u64): (r: (ReplayWindow, bool))
    requires |w.seen| == WINDOW
    ensures |r.0.seen| == WINDOW
  {
    match w.highest
    case None => (ReplayWindow(Some(id), Zeros(WINDOW)[0 := true]), true)
    case Some(highest) =>
      if id > highest then
        var shift := (id - highest) as nat;
        (ReplayWindow(Some(id), ShiftLeft(w.seen, shift)[0 := true]), true)
      else
        var offset := (highest - id) as nat;
        if offset >= WINDOW || w.seen[offset] then (w, false)
        else (w.(seen := w.seen[offset := true]), true)
  }

  /** The window of a session that has accepted exactly the ids in `accepted`. */
  ghost predicate Tracks(w: ReplayWindow, accepted: set<u64>) {
    && |w.seen| == WINDOW
    && match w.highest
       case None => accepted == {}
       case Some(highest) =>
         && highest in accepted
         && (forall id :: id in accepted ==> id <= highest)
         && (forall k: nat ::
               k < WINDOW ==> (w.seen[k] <==> exists id :: id in accepted && id as nat + k == highest as nat))
  }

  /** Not accepted before, and less than 128 below every accepted id. */
  ghost predicate Fresh(id: u64, accepted: set<u64>) {
    id !in accepted && forall other :: other in accepted ==> other as nat < id as nat + WINDOW
  }

  /** The 128-bit word decides exactly as the whole set of accepted ids would. */
  lemma WindowRefinesSet(w: ReplayWindow, accepted: set<u64>, id: u64)
    requires Tracks(w, accepted)
    ensures var (w', ok) := CheckAndMark(w, id);
            && (ok <==> Fresh(id, accepted))
            && (ok ==> Tracks(w', accepted + {id}))
            && (!ok ==> w' == w)
  {
    if w.highest.Some? {
      var highest := w.highest.value;
      if id > highest {
        AdvanceTracks(w, accepted, id);
      } else if (highest - id) as nat < WINDOW {
        var offset := (highest - id) as nat;
        assert w.seen[offset] <==> id in accepted by {
          if w.seen[offset] {
            var other :| other in accepted && other as nat + offset == highest as nat;
            assert other == id;
          }
        }
        if !w.seen[offset] {
          FillTracks(w, accepted, id);
        }
      }
    }
  }

  lemma AdvanceTracks(w: ReplayWindow, accepted: set<u64>, id: u64)
    requires Tracks(w, accepted) && w.highest.Some? && id > w.highest.value
    ensures Tracks(CheckAndMark(w, id).0, accepted + {id})
  {
    var highest, w' := w.highest.value, CheckAndMark(w, id).0;
    var shift := (id - highest) as nat;
    forall k: nat | k < WINDOW
      ensures w'.seen[k] <==> exists other :: other in accepted + {id} && other as nat + k == id as nat
    {
      if k == 0 {
        assert id in accepted + {id};
      } else if k >= shift {
        assert w'.seen[k] <==> w.seen[k - shift];
        if w'.seen[k] {
          var other :| other in accepted && other as nat + (k - shift) == highest as nat;
          assert other in accepted + {id} && other as nat + k == id as nat;
        }
      }
    }
  }

  lemma FillTracks(w: ReplayWindow, accepted: set<u64>, id: u64)
    requires Tracks(w, accepted) && w.highest.Some? && id <= w.highest.value
    requires (w.highest.value - id) as nat < WINDOW && !w.seen[(w.highest.value - id) as nat]
    ensures Tracks(CheckAndMark(w, id).0, accepted + {id})
  {
    var highest, w' := w.highest.value, CheckAndMark(w, id).0;
    forall k: nat | k < WINDOW
      ensures w'.seen[k] <==> exists other :: other in accepted + {id} && other as nat + k == highest as nat
    {
      if k == (highest - id) as nat {
        assert id in accepted + {id};
      } else if w'.seen[k] {
        var other :| other in accepted && other as nat + k == highest as nat;
        assert other in accepted + {id};
      }
    }
  }

  /** The verdict on each of a run of ids. */
  function Verdicts(w: ReplayWindow, ids: seq<u64>): (r: seq<bool>)
    requires |w.seen| == WINDOW
    ensures |r| == |ids|
    decreases ids
  {
    if ids == [] then []
    else
      var (w', ok) := CheckAndMark(w, ids[0]);
      [ok] + Verdicts(w', ids[1..])
  }

  /** The ids accepted among the first `n` of a run. */
  function AcceptedBefore(ids: seq<u64>, ok: seq<bool>, n: nat): set<u64>
    requires n <= |ids| == |ok|
  {
    set i | 0 <= i < n && ok[i] :: ids[i]
  }

  lemma {:induction false} VerdictsFrom(w: ReplayWindow, accepted: set<u64>, ids: seq<u64>, n: nat)
    requires Tracks(w, accepted) && n < |ids|
    ensures Verdicts(w, ids)[n] <==> Fresh(ids[n], accepted + AcceptedBefore(ids, Verdicts(w, ids), n))
    decreases ids
  {
    var ok := Verdicts(w, ids);
    var (w', ok0) := CheckAndMark(w, ids[0]);
    WindowRefinesSet(w, accepted, ids[0]);
    if n == 0 {
      assert accepted + AcceptedBefore(ids, ok, 0) == accepted;
    } else {
      var accepted' := if ok0 then accepted + {ids[0]} else accepted;
      VerdictsFrom(w', accepted', ids[1..], n - 1);
      var later := AcceptedBefore(ids[1..], ok[1..], n - 1);
      assert ok[1..] == Verdicts(w', ids[1..]);
      forall id ensures id in accepted + AcceptedBefore(ids, ok, n) <==> id in accepted' + later {
        if id in later {
          var i :| 0 <= i < n - 1 && ok[1..][i] && ids[1..][i] == id;
          assert ok[i + 1] && ids[i + 1] == id;
        }
        if id in AcceptedBefore(ids, ok, n) {
          var i :| 0 <= i < n && ok[i] && ids[i] == id;
          if i > 0 {
            assert ok[1..][i - 1] && ids[1..][i - 1] == id;
          }
        }
      }
      assert accepted + AcceptedBefore(ids, ok, n) == accepted' + later;
    }
  }

  /** Over any run of ids a session accepts one exactly when it is new and within 128 of the highest accepted so far. */
  lemma SessionAcceptsIff(ids: seq<u64>, n: nat)
    requires n < |ids|
    ensures Verdicts(EmptyWindow(), ids)[n] <==> Fresh(ids[n], AcceptedBefore(ids, Verdicts(EmptyWindow(), ids), n))
  {
    VerdictsFrom(EmptyWindow(), {}, ids, n);
    var before := AcceptedBefore(ids, Verdicts(EmptyWindow(), ids), n);
    assert {} + before == before;
  }

  /** No id is accepted twice, however the run goes. */
  lemma NoReplay(ids: seq<u64>, i: nat, j: nat)
    requires i < j < |ids| && ids[i] == ids[j] && Verdicts(EmptyWindow(), ids)[i]
    ensures !Verdicts(EmptyWindow(), ids)[j]
  {
    SessionAcceptsIff(ids, j);
    assert ids[i] in AcceptedBefore(ids, Verdicts(EmptyWindow(), ids), j);
  }

  /** Ids that arrive in ascending order are all accepted. */
  lemma AscendingAllAccepted(ids: seq<u64>, n: nat)
    requires n < |ids| && forall i, j :: 0 <= i < j < |ids| ==> ids[i] < ids[j]
    ensures Verdicts(EmptyWindow(), ids)[n]
  {
    SessionAcceptsIff(ids, n);
  }

  /**
   * Sharing a session between lanes needs more than distinct ids: once a lane that
   * started 128 or more above has had one message accepted, a lower lane is refused for good.
   */
  lemma DistantLaneIsShutOut(ids: seq<u64>, i: nat, j: nat)
    requires i < j < |ids| && Verdicts(EmptyWindow(), ids)[i] && ids[j] as nat + WINDOW <= ids[i] as nat
    ensures !Verdicts(EmptyWindow(), ids)[j]
  {
    SessionAcceptsIff(ids, j);
    assert ids[i] in AcceptedBefore(ids, Verdicts(EmptyWindow(), ids), j);
  }

  // ---------------------------------------------------------------- the id-framed cipher

  type Crypt = (u64, Bytes) -> Result<Bytes, string>

  const ID_FRAME_LEN: nat := 8

  /** One peer's sending half: whatever is sealed under an id, the other's opening half gives back. */
  ghost predicate Opens(seal: Crypt, open: Crypt) {
    forall id, plain :: seal(id, plain).Ok? ==> open(id, seal(id, plain).value) == Ok(plain)
  }

  /** Allocate the next id, never wrapping, and put it in front of the ciphertext. */
  function Seal(seal: Crypt, nextId: u64, plain: Bytes): (u64, Result<Bytes, ClipboardError>) {
    if nextId == 0xFFFF_FFFF_FFFF_FFFF then (nextId, Err(Encryption("message id space exhausted")))
    else
      match seal(nextId, plain)
      case Err(error) => (nextId + 1, Err(Encryption(error)))
      case Ok(body) => (nextId + 1, Ok(Be64(nextId) + body))
  }

  function Open(open: Crypt, w: ReplayWindow, framed: Bytes): (r: (ReplayWindow, Result<Bytes, ClipboardError>))
    requires |w.seen| == WINDOW
    ensures |r.0.seen| == WINDOW
  {
    if |framed| < ID_FRAME_LEN then (w, Err(Encryption("missing id frame")))
    else
      var id := Value64(framed[..8]);
      match open(id, framed[8..])
      case Err(error) => (w, Err(Encryption(error)))
      case Ok(plain) =>
        var (w', ok) := CheckAndMark(w, id);
        if ok then (w', Ok(plain)) else (w, Err(Encryption("replay detected")))
  }

  /** The id a sealed payload carries. */
  function FrameId(framed: Bytes): u64
    requires |framed| >= ID_FRAME_LEN
  {
    Value64(framed[..8])
  }

  lemma FrameIdOf(id: u64, body: Bytes)
    ensures var framed := Be64(id) + body; FrameId(framed) == id && framed[8..] == body
  {
    var framed := Be64(id) + body;
    assert framed[..8] == Be64(id);
    assert Value(Be64(Value64(framed[..8]))) == Value(Be64(id));
  }

  /** Opening what was sealed gives it back exactly when the id is new to the window; otherwise nothing changes. */
  lemma SealedOpensIff(seal: Crypt, open: Crypt, nextId: u64, plain: Bytes, w: ReplayWindow, accepted: set<u64>)
    requires Opens(seal, open) && Tracks(w, accepted) && Seal(seal, nextId, plain).1.Ok?
    ensures var framed := Seal(seal, nextId, plain).1.value;
            var (w', r) := Open(open, w, framed);
            && |framed| >= ID_FRAME_LEN && FrameId(framed) == nextId && nextId < Seal(seal, nextId, plain).0
            && (r == Ok(plain) <==> Fresh(nextId, accepted))
            && (r.Ok? ==> r == Ok(plain) && Tracks(w', accepted + {nextId}))
            && (r.Err? ==> w' == w)
  {
    hide Tracks, Fresh, CheckAndMark;
    FrameIdOf(nextId, seal(nextId, plain).value);
    WindowRefinesSet(w, accepted, nextId);
  }

  /** The payloads of a run of sealing attempts. */
  function SealAll(seal: Crypt, nextId: u64, plains: seq<Bytes>): (r: seq<Result<Bytes, ClipboardError>>)
    ensures |r| == |plains|
    decreases plains
  {
    if plains == [] then []
    else
      var (nextId', first) := Seal(seal, nextId, plains[0]);
      [first] + SealAll(seal, nextId', plains[1..])
  }

  lemma {:induction false} SealedIdsFrom(seal: Crypt, nextId: u64, plains: seq<Bytes>, j: nat)
    requires j < |plains| && SealAll(seal, nextId, plains)[j].Ok?
    ensures var framed := SealAll(seal, nextId, plains)[j].value; |framed| >= ID_FRAME_LEN && nextId <= FrameId(framed)
    decreases plains
  {
    if j == 0 {
      FrameIdOf(nextId, seal(nextId, plains[0]).value);
    } else {
      SealedIdsFrom(seal, Seal(seal, nextId, plains[0]).0, plains[1..], j - 1);
    }
  }

  lemma SealedHead(seal: Crypt, nextId: u64, plains: seq<Bytes>, k: nat)
    requires k < |plains|
    ensures SealAll(seal, nextId, plains)[k] ==
            if k == 0 then Seal(seal, nextId, plains[0]).1
              else SealAll(seal, Seal(seal, nextId, plains[0]).0, plains[1..])[k - 1]
  {
    hide Seal;
  }

  /** Over any run of sealing attempts, failures included, the ids sent strictly increase: none is ever used twice. */
  lemma {:induction false} IdsNeverReused(seal: Crypt, nextId: u64, plains: seq<Bytes>, i: nat, j: nat)
    requires i < j < |plains|
    requires SealAll(seal, nextId, plains)[i].Ok? && SealAll(seal, nextId, plains)[j].Ok?
    ensures var a, b := SealAll(seal, nextId, plains)[i].value, SealAll(seal, nextId, plains)[j].value;
            |a| >= ID_FRAME_LEN && |b| >= ID_FRAME_LEN && FrameId(a) < FrameId(b)
    decreases plains
  {
    hide FrameId, SealAll;
    SealedHead(seal, nextId, plains, i);
    SealedHead(seal, nextId, plains, j);
    var nextId' := Seal(seal, nextId, plains[0]).0;
    if i == 0 {
      FrameIdOf(nextId, seal(nextId, plains[0]).value);
      SealedIdsFrom(seal, nextId', plains[1..], j - 1);
    } else {
      IdsNeverReused(seal, nextId', plains[1..], i - 1, j - 1);
    }
  }

  /** The shared counter. */
  class SessionClipboardCipher {
    const seal: Crypt
    const open: Crypt
    var nextId: u64
    var highest: Option<u64>
    var seen: array<bool>

    predicate Valid()
      reads this
    {
      seen.Length == WINDOW
    }

    function Window(): ReplayWindow
      reads this, seen
      requires Valid()
    {
      ReplayWindow(highest, seen[..])
    }

    constructor (seal: Crypt, open: Crypt, baseId: u64)
      ensures Valid() && fresh(seen) && nextId == baseId && Window() == EmptyWindow() && this.seal == seal
              && this.open == open
    {
      this.seal, this.open, nextId, highest := seal, open, baseId, None;
      seen := new bool[WINDOW](_ => false);
    }

    method SealNext(plain: Bytes) returns (r: Result<Bytes, ClipboardError>)
      modifies this`nextId
      ensures (nextId, r) == Seal(seal, old(nextId), plain)
    {
      if nextId == 0xFFFF_FFFF_FFFF_FFFF {
        return Err(Encryption("message id space exhausted"));
      }
      var id := nextId;
      nextId := nextId + 1;
      var body := seal(id, plain);
      if body.Err? {
        return Err(Encryption(body.error));
      }
      return Ok(Be64(id) + body.value);
    }

    /** Move the word `shift` places up, bit by bit from the top. */
    method ShiftWord(shift: nat)
      requires Valid()
      modifies seen
      ensures seen[..] == ShiftLeft(old(seen[..]), shift)
    {
      var k := WINDOW;
      while k > 0
        invariant 0 <= k <= WINDOW
        invariant forall i :: 0 <= i < k ==> seen[i] == old(seen[i])
        invariant forall i :: k <= i < WINDOW ==> seen[i] == (shift <= i && old(seen[i - shift]))
      {
        k := k - 1;
        seen[k] := if shift <= k then seen[k - shift] else false;
      }
    }

    method Mark(id: u64) returns (ok: bool)
      requires Valid()
      modifies this`highest, seen
      ensures Valid() && seen == old(seen)
      ensures (Window(), ok) == CheckAndMark(old(Window()), id)
    {
      if highest.Some? && id <= highest.value {
        var offset := (highest.value - id) as nat;
        if offset >= WINDOW || seen[offset] {
          return false;
        }
        seen[offset] := true;
        return true;
      }
      ShiftWord(if highest.None? then WINDOW else (id - highest.value) as nat);
      seen[0] := true;
      highest := Some(id);
      return true;
    }

    method OpenNext(framed: Bytes) returns (r: Result<Bytes, ClipboardError>)
      requires Valid()
      modifies this`highest, seen
      ensures Valid() && seen == old(seen)
      ensures (Window(), r) == Open(open, old(Window()), framed)
    {
      if |framed| < ID_FRAME_LEN {
        return Err(Encryption("missing id frame"));
      }
      var id := Value64(framed[..8]);
      var plain := open(id, framed[8..]);
      if plain.Err? {
        return Err(Encryption(plain.error));
      }
      var ok := Mark(id);
      if !ok {
        return Err(Encryption("replay detected"));
      }
      return Ok(plain.value);
    }
  }
}
