// Operations on words bit by bit.
module Bits {
  import opened Bytes

  function PowerOf2(n: nat): (p: nat)
    ensures p > 0
  {
    if n == 0 then 1 else 2 * PowerOf2(n - 1)
  }

  lemma PowersOf2()
    ensures PowerOf2(8) == 0x100 && PowerOf2(32) == 0x1_0000_0000
  {
    assert PowerOf2(4) == 0x10;
    assert PowerOf2(8) == 0x100;
    assert PowerOf2(12) == 0x1000;
    assert PowerOf2(16) == 0x1_0000;
    assert PowerOf2(20) == 0x10_0000;
    assert PowerOf2(24) == 0x100_0000;
    assert PowerOf2(28) == 0x1000_0000;
  }

  /** An operation on the low n bits of three words. */
  function Bitwise(op: (bool, bool, bool) -> bool, x: nat, y: nat, z: nat, n: nat): nat {
    if n == 0 then 0
    else 2 * Bitwise(op, x / 2, y / 2, z / 2, n - 1) + if op(x % 2 == 1, y % 2 == 1, z % 2 == 1) then 1 else 0
  }

  lemma {:induction false} BitwiseBound(op: (bool, bool, bool) -> bool, x: nat, y: nat, z: nat, n: nat)
    ensures Bitwise(op, x, y, z, n) < PowerOf2(n)
  {
    if n > 0 {
      BitwiseBound(op, x / 2, y / 2, z / 2, n - 1);
    }
  }

  function Bitwise32(op: (bool, bool, bool) -> bool, x: Word32, y: Word32, z: Word32): Word32 {
    BitwiseBound(op, x, y, z, 32);
    PowersOf2();
    Bitwise(op, x, y, z, 32)
  }

  // ---- Exclusive or ----

  predicate XorBit(x: bool, y: bool, z: bool) { x != y }

  function Xor(a: nat, b: nat, n: nat): nat { Bitwise(XorBit, a, b, 0, n) }

  lemma {:induction false} XorTwiceBits(a: nat, b: nat, n: nat)
    requires a < PowerOf2(n)
    ensures Xor(Xor(a, b, n), b, n) == a && Xor(a, b, n) == Xor(b, a, n)
  {
    if n > 0 {
      XorTwiceBits(a / 2, b / 2, n - 1);
      assert Xor(a, b, n) / 2 == Xor(a / 2, b / 2, n - 1);
    }
  }

  function XorWord(v: Word32, w: Word32): Word32 { Bitwise32(XorBit, v, w, 0) }

  function XorByte(a: Byte, b: Byte): Byte {
    BitwiseBound(XorBit, a, b, 0, 8);
    PowersOf2();
    Xor(a, b, 8)
  }

  /** Exclusive or undoes itself. */
  lemma XorTwice(a: Byte, b: Byte)
    ensures XorByte(XorByte(a, b), b) == a && XorByte(a, b) == XorByte(b, a)
  {
    PowersOf2();
    XorTwiceBits(a, b, 8);
  }

  lemma XorWordTwice(v: Word32, w: Word32)
    ensures XorWord(XorWord(v, w), w) == v
  {
    PowersOf2();
    XorTwiceBits(v, w, 32);
  }

  /** So different bytes, or words, stay different. */
  lemma XorKeepsApart(a: Byte, b: Byte, c: Byte)
    requires a != b
    ensures XorByte(c, a) != XorByte(c, b)
  {
    XorTwice(a, c);
    XorTwice(b, c);
  }

  lemma XorWordKeepsApart(v: Word32, w: Word32, x: Word32)
    requires v != w
    ensures XorWord(v, x) != XorWord(w, x)
  {
    XorWordTwice(v, x);
    XorWordTwice(w, x);
  }

  lemma {:induction false} XorExchangeBits(a: nat, b: nat, c: nat, n: nat)
    ensures Xor(Xor(a, b, n), c, n) == Xor(Xor(a, c, n), b, n)
  {
    if n > 0 {
      XorExchangeBits(a / 2, b / 2, c / 2, n - 1);
      assert Xor(a, b, n) / 2 == Xor(a / 2, b / 2, n - 1) && Xor(a, c, n) / 2 == Xor(a / 2, c / 2, n - 1);
    }
  }

  lemma XorExchange(a: Word32, b: Word32, c: Word32)
    ensures XorWord(XorWord(a, b), c) == XorWord(XorWord(a, c), b)
  {
    XorExchangeBits(a, b, c, 32);
  }

  /** Exclusive or with an even word. */
  lemma XorHalves(x: Word32, h: nat)
    requires 2 * h < 0x1_0000_0000
    ensures XorWord(x, 2 * h) / 2 == XorWord(x / 2, h) && XorWord(x, 2 * h) % 2 == x % 2
  {
    PowersOf2();
    HighBitIsZero(x / 2, h, 31);
    assert PowerOf2(32) == 2 * PowerOf2(31);
    assert Xor(x, 2 * h, 32) == 2 * Xor(x / 2, h, 31) + x % 2;
  }

  /** A bit further up changes nothing when there is none. */
  lemma {:induction false} HighBitIsZero(a: nat, b: nat, n: nat)
    requires a < PowerOf2(n) && b < PowerOf2(n)
    ensures Xor(a, b, n + 1) == Xor(a, b, n)
  {
    if n > 0 {
      HighBitIsZero(a / 2, b / 2, n - 1);
    }
  }

  lemma {:induction false} XorNothing(a: nat, n: nat)
    requires a < PowerOf2(n)
    ensures Xor(a, 0, n) == a
  {
    if n > 0 {
      XorNothing(a / 2, n - 1);
    }
  }

  /** Bits above those of b stay. */
  lemma {:induction false} XorLow(l: nat, h: nat, b: nat, k: nat, n: nat)
    requires l < PowerOf2(k) && b < PowerOf2(k) && h < PowerOf2(n)
    ensures Xor(h * PowerOf2(k) + l, b, n + k) == h * PowerOf2(k) + Xor(l, b, k)
    ensures Xor(Xor(l, b, k), h * PowerOf2(k), n + k) == h * PowerOf2(k) + Xor(l, b, k)
  {
    BitwiseBound(XorBit, l, b, 0, k);
    if k == 0 {
      XorNothing(h, n);
      XorTwiceBits(h, 0, n);
    } else {
      var up := h * PowerOf2(k - 1);
      assert h * PowerOf2(k) == 2 * up;
      XorLow(l / 2, h, b / 2, k - 1, n);
      assert (2 * up + l) / 2 == up + l / 2 && (2 * up + l) % 2 == l % 2;
      assert Xor(l, b, k) / 2 == Xor(l / 2, b / 2, k - 1);
    }
  }

  /** A byte goes into the low byte of a word. */
  lemma XorAroundByte(c: Word32, b: Byte)
    ensures XorWord(c, b) == XorWord(XorByte(c % 0x100, b), 0x100 * (c / 0x100))
  {
    PowersOf2();
    assert PowerOf2(24) == 0x100_0000 by {
      assert PowerOf2(32) == 0x100 * PowerOf2(24);
    }
    XorLow(c % 0x100, c / 0x100, b, 8, 24);
    assert c == c / 0x100 * 0x100 + c % 0x100;
  }
}
