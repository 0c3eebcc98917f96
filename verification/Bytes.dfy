// Bytes, and the little-endian numbers that are made of them.
module Bytes {
  type Byte = b: int | 0 <= b < 0x100

  // A 32-bit word held as a number.
  type Word32 = w: int | 0 <= w < 0x1_0000_0000

  /** Four bytes, the least significant first. */
  function Word(b: seq<Byte>): Word32
    requires |b| == 4
  {
    var b0: int, b1: int, b2: int, b3: int := b[0], b[1], b[2], b[3];
    b0 + 0x100 * b1 + 0x1_0000 * b2 + 0x100_0000 * b3
  }

  function WordBytes(w: Word32): (b: seq<Byte>)
    ensures |b| == 4
  {
    [w % 0x100, w / 0x100 % 0x100, w / 0x1_0000 % 0x100, w / 0x100_0000]
  }

  /** memcpy into an array. */
  method CopyTo(buf: array<Byte>, at: nat, data: seq<Byte>)
    requires at + |data| <= buf.Length
    modifies buf
    ensures buf[..] == old(buf[..at]) + data + old(buf[at + |data|..])
  {
    var i := 0;
    while i < |data|
      invariant i <= |data|
      invariant forall k :: 0 <= k < buf.Length ==> buf[k] == if at <= k < at + i then data[k - at] else old(buf[k])
    {
      buf[at + i] := data[i];
      i := i + 1;
    }
  }

  /** Pieces of pieces. */
  lemma TailPieces(s: seq<Byte>, a: nat, n: nat)
    requires a + n <= |s|
    ensures s[a..][..n] == s[a..a + n] && s[a..][n..] == s[a + n..]
  {
  }

  lemma SliceOfSlice(s: seq<Byte>, a: nat, b: nat, c: nat, n: nat)
    requires a <= b <= |s| && a + c + n <= b
    ensures s[a + c..a + c + n] == s[a..b][c..c + n]
  {
    var whole := s[a..b];
    var left, right := s[a + c..a + c + n], whole[c..c + n];
    forall k | 0 <= k < n ensures left[k] == right[k] {
      assert right[k] == whole[c + k] == s[a + c + k];
    }
  }

  lemma Concatenate4(a: seq<Byte>, b: seq<Byte>, c: seq<Byte>, d: seq<Byte>, e: seq<Byte>)
    ensures a + (b + c + d + e) == a + b + c + d + e
    ensures a + (b + c + d) == a + b + c + d
  {
  }

  lemma PrefixOfTail(s: seq<Byte>, n: nat, t: seq<Byte>)
    requires n <= |s| && t <= s[n..]
    ensures s[..n] + t <= s && s[n..][|t|..] == s[n + |t|..]
  {
    assert s == s[..n] + s[n..];
  }
}
