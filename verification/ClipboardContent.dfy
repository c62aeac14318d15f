/**
 * The canonical multi-format snapshot: crates/clipboard/src/content.rs:66-76, 156-180.
 *
 * A MIME name is the byte string of a Rust `String`, compared byte by byte.
 */
module ClipboardContent {
  import opened Wrappers
  import opened ByteOrder

  datatype Content = Content(mime: Bytes, data: Bytes)

  type Snapshot = seq<Content>

  // ---------------------------------------------------------------- canonical snapshots

  predicate Sorted(s: Snapshot) {
    forall i, j :: 0 <= i < j < |s| ==> !Before(s[j].mime, s[i].mime)
  }

  /** Strictly ascending MIME names: what every snapshot in the program satisfies. */
  predicate Canonical(s: Snapshot) {
    forall i, j :: 0 <= i < j < |s| ==> Before(s[i].mime, s[j].mime)
  }

  /** The first representation of `mime` among `formats`. */
  function FirstOf(formats: seq<Content>, mime: Bytes): (r: Option<Content>)
    ensures r.Some? ==> r.value in formats && r.value.mime == mime
  {
    if formats == [] then None
    else if formats[0].mime == mime then Some(formats[0])
    else FirstOf(formats[1..], mime)
  }

  /** Both lists give every MIME the same first representation. */
  ghost predicate SameFirsts(s: seq<Content>, formats: seq<Content>) {
    forall mime: Bytes :: FirstOf(s, mime) == FirstOf(formats, mime)
  }

  /** `s` holds, in order, the first representation of every MIME in `formats` and nothing else. */
  ghost predicate IsCanonicalOf(s: Snapshot, formats: seq<Content>) {
    Canonical(s) && SameFirsts(s, formats)
  }

  lemma {:induction false} FirstOfNone(formats: seq<Content>, mime: Bytes)
    ensures FirstOf(formats, mime).None? <==> forall c :: c in formats ==> c.mime != mime
  {
    if formats != [] {
      FirstOfNone(formats[1..], mime);
      assert formats == [formats[0]] + formats[1..];
    }
  }

  lemma {:induction false} FirstOfCanonical(s: Snapshot, c: Content)
    requires Canonical(s) && c in s
    ensures FirstOf(s, c.mime) == Some(c)
  {
    if s[0] != c {
      var i :| 0 <= i < |s| && s[i] == c;
      BeforeIsTotal(s[0].mime, s[i].mime);
      assert s[1..][i - 1] == c;
      FirstOfCanonical(s[1..], c);
    }
  }

  lemma EmptyOrInhabited(s: Snapshot)
    ensures s == [] || exists c :: c in s
  {
    if s != [] {
      assert s[0] in s;
    }
  }

  /** A canonical list is determined by its members. */
  lemma {:induction false} SameMembersSameList(s: Snapshot, t: Snapshot)
    requires Canonical(s) && Canonical(t)
    requires forall c :: c in s <==> c in t
    ensures s == t
  {
    if s == [] {
      EmptyOrInhabited(t);
    } else {
      assert s[0] in t;
      assert t[0] in s;
      FirstIsLeast(s, t);
      FirstIsLeast(t, s);
      BeforeIsTotal(s[0].mime, t[0].mime);
      FirstOfCanonical(s, t[0]);
      assert s[0] == t[0];
      forall c ensures c in s[1..] <==> c in t[1..] {
        TailMembers(s, c);
        TailMembers(t, c);
      }
      SameMembersSameList(s[1..], t[1..]);
      assert s == [s[0]] + s[1..] && t == [t[0]] + t[1..];
    }
  }

  lemma FirstIsLeast(s: Snapshot, t: Snapshot)
    requires Canonical(s) && t != [] && t[0] in s
    ensures s != [] && !Before(t[0].mime, s[0].mime)
  {
    var i :| 0 <= i < |s| && s[i] == t[0];
    BeforeIsTotal(s[0].mime, s[i].mime);
  }

  lemma TailMembers(s: Snapshot, c: Content)
    requires Canonical(s) && s != []
    ensures c in s[1..] <==> c in s && c != s[0]
  {
    if c in s[1..] {
      var i :| 0 <= i < |s[1..]| && s[1..][i] == c;
      assert s[i + 1] == c;
      BeforeIsTotal(s[0].mime, s[i + 1].mime);
    }
  }

  /** The canonical form of a list of representations is unique. */
  lemma CanonicalFormIsUnique(s: Snapshot, t: Snapshot, formats: seq<Content>)
    requires IsCanonicalOf(s, formats) && IsCanonicalOf(t, formats)
    ensures s == t
  {
    forall c ensures c in s <==> c in t {
      if c in s { FirstOfCanonical(s, c); }
      if c in t { FirstOfCanonical(t, c); }
    }
    SameMembersSameList(s, t);
  }

  // ---------------------------------------------------------------- building one

  /** Where a representation goes in a sorted list: after everything that is not later. */
  function InsertionPoint(s: Snapshot, mime: Bytes): (k: nat)
    ensures k <= |s|
    ensures k < |s| ==> Before(mime, s[k].mime)
    ensures forall i :: 0 <= i < k ==> !Before(mime, s[i].mime)
  {
    if s == [] || Before(mime, s[0].mime) then 0 else 1 + InsertionPoint(s[1..], mime)
  }

  function Inserted(s: Snapshot, c: Content): (t: Snapshot) {
    var k := InsertionPoint(s, c.mime);
    s[..k] + [c] + s[k..]
  }

  /** The canonical form, one representation at a time: a MIME already present keeps its first data. */
  function CanonicalForm(formats: seq<Content>): (s: Snapshot) {
    if formats == [] then []
    else
      var s, c := CanonicalForm(formats[..|formats| - 1]), formats[|formats| - 1];
      if FirstOf(s, c.mime).Some? then s else Inserted(s, c)
  }

  function FirstAfter(first: Option<Content>, c: Content, mime: Bytes): Option<Content> {
    if first.Some? then first else if c.mime == mime then Some(c) else None
  }

  lemma {:induction false} FirstOfAppend(formats: seq<Content>, c: Content, mime: Bytes)
    ensures FirstOf(formats + [c], mime) == FirstAfter(FirstOf(formats, mime), c, mime)
  {
    if formats != [] {
      FirstOfAppend(formats[1..], c, mime);
      assert (formats + [c])[1..] == formats[1..] + [c];
    }
  }

  lemma {:induction false} FirstOfInsert(s: seq<Content>, c: Content, mime: Bytes)
    requires Sorted(s)
    ensures FirstOf(Inserted(s, c), mime) == FirstAfter(FirstOf(s, mime), c, mime)
  {
    var t := Inserted(s, c);
    if s == [] || Before(c.mime, s[0].mime) {
      assert t[1..] == s;
      if c.mime == mime {
        FirstOfNone(s, mime);
        forall i | 0 <= i < |s| ensures s[i].mime != mime {
          BeforeIsTotal(s[i].mime, s[0].mime);
        }
      }
    } else {
      assert t[1..] == Inserted(s[1..], c);
      FirstOfInsert(s[1..], c, mime);
    }
  }

  /** A sorted list splits at the insertion point. */
  lemma AroundInsertion(s: seq<Content>, mime: Bytes, i: nat)
    requires Sorted(s) && i < |s|
    ensures i >= InsertionPoint(s, mime) ==> Before(mime, s[i].mime) && !Before(s[i].mime, mime)
    ensures i < InsertionPoint(s, mime) ==> s[i].mime == mime || Before(s[i].mime, mime)
  {
    var k := InsertionPoint(s, mime);
    BeforeIsTotal(s[i].mime, mime);
    if i > k {
      BeforeIsTotal(s[k].mime, s[i].mime);
      if s[k].mime != s[i].mime {
        BeforeIsTransitive(mime, s[k].mime, s[i].mime);
      }
    }
  }

  lemma InsertLosesNothing(s: seq<Content>, c: Content)
    ensures multiset(Inserted(s, c)) == multiset(s) + multiset{c}
  {
    hide Before;
    var k := InsertionPoint(s, c.mime);
    assert s == s[..k] + s[k..];
  }

  /** Inserting keeps a sorted list sorted. */
  lemma InsertKeepsSorted(s: seq<Content>, c: Content)
    requires Sorted(s)
    ensures Sorted(Inserted(s, c))
  {
    var k, t := InsertionPoint(s, c.mime), Inserted(s, c);
    forall i, j | 0 <= i < j < |t| ensures !Before(t[j].mime, t[i].mime) {
      if i == k { AroundInsertion(s, c.mime, j - 1); }
      hide Before;
    }
  }

  /** Inserting a new name keeps a canonical list canonical. */
  lemma InsertKeepsCanonical(s: Snapshot, c: Content)
    requires Canonical(s) && FirstOf(s, c.mime).None?
    ensures Canonical(Inserted(s, c))
  {
    hide Before, FirstOf, InsertionPoint;
    CanonicalIsSorted(s);
    FirstOfNone(s, c.mime);
    var k := InsertionPoint(s, c.mime);
    forall i | 0 <= i < |s| ensures if i < k then Before(s[i].mime, c.mime) else Before(c.mime, s[i].mime) {
      AroundInsertion(s, c.mime, i);
      assert s[i] in s;
    }
    BetweenIsCanonical(s, c, k);
  }

  lemma BetweenIsCanonical(s: Snapshot, c: Content, k: nat)
    requires Canonical(s) && k <= |s|
    requires forall i :: 0 <= i < |s| ==> if i < k then Before(s[i].mime, c.mime) else Before(c.mime, s[i].mime)
    ensures Canonical(s[..k] + [c] + s[k..])
  {
    hide Before;
  }

  lemma CanonicalIsSorted(s: Snapshot)
    requires Canonical(s)
    ensures Sorted(s)
  {
    forall i, j | 0 <= i < j < |s| ensures !Before(s[j].mime, s[i].mime) {
      BeforeIsTotal(s[i].mime, s[j].mime);
    }
  }

  lemma {:induction false} CanonicalFormIsCanonical(formats: seq<Content>)
    ensures IsCanonicalOf(CanonicalForm(formats), formats)
  {
    if formats != [] {
      var init, c := formats[..|formats| - 1], formats[|formats| - 1];
      assert formats == init + [c];
      CanonicalFormIsCanonical(init);
      var s := CanonicalForm(init);
      CanonicalIsSorted(s);
      if FirstOf(s, c.mime).None? {
        InsertKeepsCanonical(s, c);
      }
      hide Inserted;
      forall mime: Bytes ensures FirstOf(CanonicalForm(formats), mime) == FirstOf(formats, mime) {
        FirstOfInsert(s, c, mime);
        FirstOfAppend(init, c, mime);
      }
    }
  }

  /** A snapshot is its own canonical form, so building from a snapshot's own formats changes nothing. */
  lemma CanonicalFormOfCanonical(s: Snapshot)
    ensures CanonicalForm(s) == s <==> Canonical(s)
  {
    CanonicalFormIsCanonical(s);
    if Canonical(s) {
      CanonicalFormIsUnique(s, CanonicalForm(s), s);
    }
  }

  /** With one representation per MIME, the order in which a platform lists them does not matter. */
  lemma OrderIndependent(a: seq<Content>, b: seq<Content>)
    requires forall c :: c in a <==> c in b
    requires forall c, d :: c in a && d in a && c.mime == d.mime ==> c == d
    ensures CanonicalForm(a) == CanonicalForm(b)
  {
    forall mime: Bytes ensures FirstOf(a, mime) == FirstOf(b, mime) {
      FirstOfNone(a, mime);
      FirstOfNone(b, mime);
    }
    CanonicalFormIsCanonical(a);
    CanonicalFormIsCanonical(b);
    CanonicalFormIsUnique(CanonicalForm(a), CanonicalForm(b), b);
  }

  // ---------------------------------------------------------------- `new`: stable sort, then dedup

  /** The stable sort by MIME. */
  method SortByMime(formats: seq<Content>) returns (sorted: seq<Content>)
    ensures Sorted(sorted) && SameFirsts(sorted, formats) && multiset(sorted) == multiset(formats)
  {
    sorted := [];
    for n := 0 to |formats|
      invariant Sorted(sorted) && SameFirsts(sorted, formats[..n]) && multiset(sorted) == multiset(formats[..n])
    {
      assert formats[..n + 1] == formats[..n] + [formats[n]];
      InsertKeepsSorted(sorted, formats[n]);
      InsertLosesNothing(sorted, formats[n]);
      SortStep(sorted, formats[..n], formats[n]);
      sorted := Inserted(sorted, formats[n]);
    }
    assert formats[..|formats|] == formats;
  }

  lemma SortStep(s: seq<Content>, formats: seq<Content>, c: Content)
    requires Sorted(s) && SameFirsts(s, formats)
    ensures SameFirsts(Inserted(s, c), formats + [c])
  {
    forall mime: Bytes ensures FirstOf(Inserted(s, c), mime) == FirstOf(formats + [c], mime) {
      FirstOfInsert(s, c, mime);
      FirstOfAppend(formats, c, mime);
    }
  }

  /** Building a snapshot: sort, then drop every representation whose name equals the one kept before it. */
  method NewSnapshot(formats: seq<Content>) returns (s: Snapshot)
    ensures s == CanonicalForm(formats)
  {
    hide CanonicalForm, Before;
    var sorted := SortByMime(formats);
    s := [];
    for n := 0 to |sorted|
      invariant IsCanonicalOf(s, sorted[..n])
      invariant n == 0 <==> s == []
      invariant n > 0 ==> s[|s| - 1].mime == sorted[n - 1].mime
    {
      assert sorted[..n + 1] == sorted[..n] + [sorted[n]];
      DedupStep(s, sorted[..n], sorted[n]);
      if s == [] || s[|s| - 1].mime != sorted[n].mime {
        s := s + [sorted[n]];
      }
    }
    assert sorted[..|sorted|] == sorted;
    CanonicalFormIsCanonical(formats);
    assert IsCanonicalOf(s, formats);
    CanonicalFormIsUnique(s, CanonicalForm(formats), formats);
  }

  lemma DedupStep(s: Snapshot, formats: seq<Content>, c: Content)
    requires IsCanonicalOf(s, formats)
    requires s != [] ==> !Before(c.mime, s[|s| - 1].mime)
    ensures s == [] || s[|s| - 1].mime != c.mime ==> IsCanonicalOf(s + [c], formats + [c])
    ensures s != [] && s[|s| - 1].mime == c.mime ==> IsCanonicalOf(s, formats + [c])
  {
    if s == [] || s[|s| - 1].mime != c.mime {
      forall i | 0 <= i < |s| ensures Before(s[i].mime, c.mime) {
        BeforeIsTotal(s[|s| - 1].mime, c.mime);
        if i < |s| - 1 {
          BeforeIsTransitive(s[i].mime, s[|s| - 1].mime, c.mime);
        }
      }
    }
    forall mime: Bytes
      ensures FirstOf(s + [c], mime) == FirstOf(formats + [c], mime)
      ensures FirstOf(s + [c], mime) == FirstAfter(FirstOf(s, mime), c, mime)
    {
      FirstOfAppend(s, c, mime);
      FirstOfAppend(formats, c, mime);
    }
    if s != [] && s[|s| - 1].mime == c.mime {
      FirstOfCanonical(s, s[|s| - 1]);
    }
  }
}
