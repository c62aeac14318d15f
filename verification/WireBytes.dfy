/**
 * Big-endian integers and the byte buffer the clipboard codecs fill and
 * consume: the `put_*`, `get_*` and `split_to` calls of
 * crates/clipboard/src/content.rs:255-356 and crates/clipboard/src/sync.rs:75-112.
 */
module WireBytes {
  import opened Wrappers

  function Pow256(w: nat): (r: nat)
    ensures r > 0
  {
    if w == 0 then 1 else 256 * Pow256(w - 1)
  }

  function BigEndian(n: nat, w: nat): (r: Bytes)
    requires n < Pow256(w)
    ensures |r| == w
  {
    if w == 0 then [] else BigEndian(n / 256, w - 1) + [(n % 256) as byte]
  }

  function Value(b: Bytes): (n: nat)
    ensures n < Pow256(|b|)
  {
    if b == [] then 0 else 256 * Value(b[..|b| - 1]) + b[|b| - 1] as nat
  }

  /** Reading back what was written. */
  lemma {:induction false} ValueOfBigEndian(n: nat, w: nat)
    requires n < Pow256(w)
    ensures Value(BigEndian(n, w)) == n
  {
    if w > 0 {
      var b := BigEndian(n, w);
      assert b[..w - 1] == BigEndian(n / 256, w - 1);
      ValueOfBigEndian(n / 256, w - 1);
    }
  }

  /** Writing back what was read. */
  lemma {:induction false} BigEndianOfValue(b: Bytes)
    ensures BigEndian(Value(b), |b|) == b
  {
    if b != [] {
      BigEndianOfValue(b[..|b| - 1]);
      assert b == b[..|b| - 1] + [b[|b| - 1]];
    }
  }

  lemma Widths()
    ensures Pow256(1) == 0x100 && Pow256(4) == 0x1_0000_0000
    ensures Pow256(8) == 0x1_0000_0000_0000_0000
    ensures Pow256(16) == 0x1_0000_0000_0000_0000_0000_0000_0000_0000
  {
    assert Pow256(2) == 0x1_0000;
    assert Pow256(4) == 256 * (256 * Pow256(2));
    assert Pow256(6) == 256 * (256 * Pow256(4));
    assert Pow256(8) == 256 * (256 * Pow256(6));
    assert Pow256(10) == 256 * (256 * Pow256(8));
    assert Pow256(12) == 256 * (256 * Pow256(10));
    assert Pow256(14) == 256 * (256 * Pow256(12));
    assert Pow256(16) == 256 * (256 * Pow256(14));
  }

  /** The 4-byte length prefix. */
  function Be32(n: nat): (r: Bytes)
    requires n <= U32_MAX
    ensures |r| == 4 && Value(r) == n
  {
    Widths();
    ValueOfBigEndian(n, 4);
    BigEndian(n, 4)
  }

  /** Four bytes are the prefix of exactly one length. */
  lemma Be32OfValue(b: Bytes)
    requires |b| == 4
    ensures Value(b) <= U32_MAX && Be32(Value(b)) == b
  {
    Widths();
    BigEndianOfValue(b);
  }

  /** A growable buffer that is filled at the end and consumed at the front. */
  class ByteBuffer {
    var content: Bytes

    constructor (content: Bytes)
      ensures this.content == content
    {
      this.content := content;
    }

    method PutInt(n: nat, w: nat)
      requires n < Pow256(w)
      modifies this
      ensures content == old(content) + BigEndian(n, w)
    {
      content := content + BigEndian(n, w);
    }

    method PutSlice(b: Bytes)
      modifies this
      ensures content == old(content) + b
    {
      content := content + b;
    }

    method GetInt(w: nat) returns (n: nat)
      requires w <= |content|
      modifies this
      ensures n == Value(old(content)[..w]) && content == old(content)[w..]
    {
      n := Value(content[..w]);
      content := content[w..];
    }

    method SplitTo(n: nat) returns (b: Bytes)
      requires n <= |content|
      modifies this
      ensures b == old(content)[..n] && content == old(content)[n..]
    {
      b := content[..n];
      content := content[n..];
    }
  }
}
