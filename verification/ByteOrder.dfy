/**
 * The byte-by-byte order of strings, and sorting by a byte-string key: what
 * `str::cmp` and `sort_by` are relied on for in crates/clipboard/src/content.rs:171
 * and apps/desktop/src/file_transfer.rs:1730-1735, 1857-1861.
 */
module ByteOrder {
  import opened Wrappers

  /** Strictly before, byte by byte; a proper prefix comes first. */
  predicate Before(a: Bytes, b: Bytes) {
    if b == [] then false
    else if a == [] then true
    else a[0] < b[0] || (a[0] == b[0] && Before(a[1..], b[1..]))
  }

  lemma {:induction false} BeforeIsTransitive(a: Bytes, b: Bytes, c: Bytes)
    requires Before(a, b) && Before(b, c)
    ensures Before(a, c)
  {
    if a != [] && a[0] == b[0] == c[0] {
      BeforeIsTransitive(a[1..], b[1..], c[1..]);
    }
  }

  /** Exactly one of before, equal and after holds. */
  lemma {:induction false} BeforeIsTotal(a: Bytes, b: Bytes)
    ensures a != b <==> Before(a, b) || Before(b, a)
    ensures !(Before(a, b) && Before(b, a))
  {
    if a != [] && b != [] {
      BeforeIsTotal(a[1..], b[1..]);
      assert a == [a[0]] + a[1..] && b == [b[0]] + b[1..];
    }
  }

  // ---------------------------------------------------------------- sorting by key

  datatype Keyed<T> = Keyed(key: Bytes, value: T)

  predicate Ascending<T>(s: seq<Keyed<T>>) {
    forall i, j :: 0 <= i < j < |s| ==> Before(s[i].key, s[j].key)
  }

  ghost predicate DistinctKeys<T>(s: seq<Keyed<T>>) {
    forall i, j :: 0 <= i < j < |s| ==> s[i].key != s[j].key
  }

  function Insert<T>(x: Keyed<T>, s: seq<Keyed<T>>): (r: seq<Keyed<T>>)
    ensures multiset(r) == multiset{x} + multiset(s)
  {
    if s == [] then [x]
    else if Before(s[0].key, x.key) then
      assert s == [s[0]] + s[1..];
      [s[0]] + Insert(x, s[1..])
    else [x] + s
  }

  function Sort<T>(s: seq<Keyed<T>>): (r: seq<Keyed<T>>)
    ensures multiset(r) == multiset(s)
  {
    if s == [] then []
    else
      assert s == [s[0]] + s[1..];
      Insert(s[0], Sort(s[1..]))
  }

  lemma {:induction false} InsertAscending<T>(x: Keyed<T>, s: seq<Keyed<T>>)
    requires Ascending(s) && forall y :: y in s ==> y.key != x.key
    ensures Ascending(Insert(x, s))
  {
    if s != [] {
      BeforeIsTotal(s[0].key, x.key);
      if Before(s[0].key, x.key) {
        InsertAscending(x, s[1..]);
        var r := Insert(x, s[1..]);
        forall j | 0 <= j < |r| ensures Before(s[0].key, r[j].key) {
          assert r[j] in multiset(r);
          assert r[j] == x || r[j] in s[1..];
        }
      } else {
        forall j | 0 <= j < |s| ensures Before(x.key, s[j].key) {
          if j > 0 {
            BeforeIsTransitive(x.key, s[0].key, s[j].key);
          }
        }
      }
    }
  }

  /** With distinct keys, sorting puts them in strictly ascending order. */
  lemma {:induction false} SortAscending<T>(s: seq<Keyed<T>>)
    requires DistinctKeys(s)
    ensures Ascending(Sort(s))
  {
    if s != [] {
      SortAscending(s[1..]);
      forall y | y in Sort(s[1..]) ensures y.key != s[0].key {
        assert y in multiset(s[1..]);
        var k :| 0 <= k < |s[1..]| && s[1..][k] == y;
        assert s[k + 1] == y;
      }
      InsertAscending(s[0], Sort(s[1..]));
    }
  }

  lemma HeadIsLeast<T>(s: seq<Keyed<T>>, x: Keyed<T>)
    requires Ascending(s) && x in multiset(s)
    ensures s != [] && (x == s[0] || Before(s[0].key, x.key))
  {
    var i :| 0 <= i < |s| && s[i] == x;
  }

  lemma HeadsAgree<T>(s: seq<Keyed<T>>, t: seq<Keyed<T>>)
    requires Ascending(s) && Ascending(t) && multiset(s) == multiset(t) && s != []
    ensures t != [] && s[0] == t[0]
  {
    assert s[0] in multiset(t);
    HeadIsLeast(t, s[0]);
    assert t[0] in multiset(s);
    HeadIsLeast(s, t[0]);
    BeforeIsTotal(s[0].key, t[0].key);
  }

  lemma TailMultiset<T>(s: seq<T>)
    requires s != []
    ensures multiset(s[1..]) == multiset(s) - multiset{s[0]}
  {
    assert s == [s[0]] + s[1..];
  }

  /** An ascending list is determined by its members. */
  lemma {:induction false} AscendingUnique<T>(s: seq<Keyed<T>>, t: seq<Keyed<T>>)
    requires Ascending(s) && Ascending(t) && multiset(s) == multiset(t)
    ensures s == t
  {
    if s != [] {
      HeadsAgree(s, t);
      TailMultiset(s);
      TailMultiset(t);
      AscendingUnique(s[1..], t[1..]);
      assert s == [s[0]] + s[1..] && t == [t[0]] + t[1..];
    } else {
      assert |multiset(t)| == |t|;
    }
  }

  /** The sorted list does not depend on the order things came in. */
  lemma SortIgnoresOrder<T>(s: seq<Keyed<T>>, t: seq<Keyed<T>>)
    requires multiset(s) == multiset(t) && DistinctKeys(s) && DistinctKeys(t)
    ensures Sort(s) == Sort(t)
  {
    SortAscending(s);
    SortAscending(t);
    AscendingUnique(Sort(s), Sort(t));
  }

  /** Distinctness of keys does not depend on the order either. */
  lemma DistinctIgnoresOrder<T>(s: seq<Keyed<T>>, t: seq<Keyed<T>>)
    requires multiset(s) == multiset(t) && DistinctKeys(s)
    ensures DistinctKeys(t)
  {
    forall i, j | 0 <= i < j < |t| ensures t[i].key != t[j].key {
      if t[i].key == t[j].key {
        TwoPlaces(t, i, j);
        assert t[i] in multiset(s) && t[j] in multiset(s);
        var a :| 0 <= a < |s| && s[a] == t[i];
        var b :| 0 <= b < |s| && s[b] == t[j];
        assert a == b;
        AtMostOnce(s, a);
        assert false;
      }
    }
  }

  lemma TwoPlaces<T>(t: seq<T>, i: nat, j: nat)
    requires i < j < |t|
    ensures t[i] == t[j] ==> multiset(t)[t[i]] >= 2
  {
    assert t == t[..j] + [t[j]] + t[j + 1..];
    assert t[i] in multiset(t[..j]) by { assert t[..j][i] == t[i]; }
  }

  lemma AtMostOnce<T>(s: seq<Keyed<T>>, a: nat)
    requires DistinctKeys(s) && a < |s|
    ensures multiset(s)[s[a]] == 1
  {
    assert s == s[..a] + [s[a]] + s[a + 1..];
    assert s[a] !in s[..a];
    assert s[a] !in s[a + 1..];
  }
}
