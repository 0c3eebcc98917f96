// MD5 as RFC 1321 defines it, section by section.
module Md5Spec {
  import opened Bytes
  import opened Bits

  datatype Regs = Regs(a: Word32, b: Word32, c: Word32, d: Word32)

  // Section 2: addition of words is modulo 2^32
  function Add(v: Word32, w: Word32): Word32 { (v + w) % 0x1_0000_0000 }

  /** Circular shift to the left. */
  function Rotl(w: Word32, s: nat): Word32
    requires 0 < s < 32
  {
    var high := w * PowerOf2(s) % 0x1_0000_0000;
    (high + w / PowerOf2(32 - s)) % 0x1_0000_0000
  }

  // Section 3.3
  const INIT := Regs(0x67452301, 0xefcdab89, 0x98badcfe, 0x10325476)

  // Section 3.4: the auxiliary functions, for one bit and for words
  predicate FBit(x: bool, y: bool, z: bool) { (x && y) || (!x && z) }

  predicate GBit(x: bool, y: bool, z: bool) { (x && z) || (y && !z) }

  predicate HBit(x: bool, y: bool, z: bool) { (x != y) != z }

  predicate IBit(x: bool, y: bool, z: bool) { y != (x || !z) }

  function F(x: Word32, y: Word32, z: Word32): Word32 { Bitwise32(FBit, x, y, z) }

  function G(x: Word32, y: Word32, z: Word32): Word32 { Bitwise32(GBit, x, y, z) }

  function H(x: Word32, y: Word32, z: Word32): Word32 { Bitwise32(HBit, x, y, z) }

  function I(x: Word32, y: Word32, z: Word32): Word32 { Bitwise32(IBit, x, y, z) }

  /** T[i + 1]: the integer part of 4294967296 times abs(sin(i + 1)). */
  function T(i: nat): Word32
    requires i < 64
  {
    match i / 4
    case 0 => [0xd76aa478, 0xe8c7b756, 0x242070db, 0xc1bdceee][i % 4]
    case 1 => [0xf57c0faf, 0x4787c62a, 0xa8304613, 0xfd469501][i % 4]
    case 2 => [0x698098d8, 0x8b44f7af, 0xffff5bb1, 0x895cd7be][i % 4]
    case 3 => [0x6b901122, 0xfd987193, 0xa679438e, 0x49b40821][i % 4]
    case 4 => [0xf61e2562, 0xc040b340, 0x265e5a51, 0xe9b6c7aa][i % 4]
    case 5 => [0xd62f105d, 0x02441453, 0xd8a1e681, 0xe7d3fbc8][i % 4]
    case 6 => [0x21e1cde6, 0xc33707d6, 0xf4d50d87, 0x455a14ed][i % 4]
    case 7 => [0xa9e3e905, 0xfcefa3f8, 0x676f02d9, 0x8d2a4c8a][i % 4]
    case 8 => [0xfffa3942, 0x8771f681, 0x6d9d6122, 0xfde5380c][i % 4]
    case 9 => [0xa4beea44, 0x4bdecfa9, 0xf6bb4b60, 0xbebfbc70][i % 4]
    case 10 => [0x289b7ec6, 0xeaa127fa, 0xd4ef3085, 0x04881d05][i % 4]
    case 11 => [0xd9d4d039, 0xe6db99e5, 0x1fa27cf8, 0xc4ac5665][i % 4]
    case 12 => [0xf4292244, 0x432aff97, 0xab9423a7, 0xfc93a039][i % 4]
    case 13 => [0x655b59c3, 0x8f0ccc92, 0xffeff47d, 0x85845dd1][i % 4]
    case 14 => [0x6fa87e4f, 0xfe2ce6e0, 0xa3014314, 0x4e0811a1][i % 4]
    case _ => [0xf7537e82, 0xbd3af235, 0x2ad7d2bb, 0xeb86d391][i % 4]
  }

  /** Which word of the block step i adds. */
  function Index(i: nat): (k: nat)
    ensures k < 16
  {
    if i < 16 then i % 16 else if i < 32 then (1 + 5 * i) % 16 else if i < 48 then (5 + 3 * i) % 16 else (7 * i) % 16
  }

  function Shift(i: nat): (s: nat)
    requires i < 64
    ensures 0 < s < 32
  {
    if i < 16 then [7, 12, 17, 22][i % 4] else if i < 32 then [5, 9, 14, 20][i % 4]
    else if i < 48 then [4, 11, 16, 23][i % 4] else [6, 10, 15, 21][i % 4]
  }

  function Mix(i: nat, x: Word32, y: Word32, z: Word32): Word32 {
    if i < 16 then F(x, y, z) else if i < 32 then G(x, y, z) else if i < 48 then H(x, y, z) else I(x, y, z)
  }

  /** Step i; afterwards the registers change their roles. */
  function Step(r: Regs, x: seq<Word32>, i: nat): Regs
    requires |x| == 16 && i < 64
  {
    Regs(r.d, Add(r.b, Rotl(Add(Add(r.a, Mix(i, r.b, r.c, r.d)), Add(x[Index(i)], T(i))), Shift(i))), r.b, r.c)
  }

  /** Steps from..from + n. */
  function Steps(r: Regs, x: seq<Word32>, from: nat, n: nat): Regs
    requires |x| == 16 && from + n <= 64
  {
    if n == 0 then r else Step(Steps(r, x, from, n - 1), x, from + n - 1)
  }

  function Compress(r: Regs, x: seq<Word32>): Regs
    requires |x| == 16
  {
    var s := Steps(r, x, 0, 64);
    Regs(Add(r.a, s.a), Add(r.b, s.b), Add(r.c, s.c), Add(r.d, s.d))
  }

  function Words(b: seq<Byte>): (x: seq<Word32>)
    requires |b| == 64
    ensures |x| == 16
  {
    seq(16, k requires 0 <= k < 16 => Word(b[4 * k..4 * k + 4]))
  }

  /** The chaining value after a sequence of whole blocks. */
  function Chain(r: Regs, m: seq<Byte>): Regs
    requires |m| % 64 == 0
  {
    if m == [] then r else Compress(Chain(r, m[..|m| - 64]), Words(m[|m| - 64..]))
  }

  function Zeros(n: nat): (z: seq<Byte>)
    ensures |z| == n
  {
    seq(n, _ => 0)
  }

  /** The number of bits modulo 2^64, as two words, the low one first. */
  function LengthBytes(n: nat): (b: seq<Byte>)
    ensures |b| == 8
  {
    WordBytes(8 * n % 0x1_0000_0000) + WordBytes(8 * n / 0x1_0000_0000 % 0x1_0000_0000)
  }

  /** How many zero bytes bring a message and the byte 0x80 to 56 modulo 64 bytes. */
  function ZerosNeeded(n: nat): (z: nat)
    ensures z < 64 && (n + 1 + z) % 64 == 56
  {
    assert n == 64 * (n / 64) + n % 64;
    if n % 64 <= 55 then
      assert n + 1 + (55 - n % 64) == 64 * (n / 64) + 56;
      55 - n % 64
    else
      assert n + 1 + (119 - n % 64) == 64 * (n / 64 + 1) + 56;
      119 - n % 64
  }

  lemma EightMore(n: nat)
    requires n % 64 == 56
    ensures (n + 8) % 64 == 0
  {
  }

  /** Sections 3.1 and 3.2: a one bit, zero bits up to 448 modulo 512, the length. */
  function Pad(m: seq<Byte>): (p: seq<Byte>)
    ensures |p| % 64 == 0 && m <= p
  {
    var padded := m + ([0x80] + Zeros(ZerosNeeded(|m|)));
    assert |padded| % 64 == 56;
    EightMore(|padded|);
    padded + LengthBytes(|m|)
  }

  /** Section 3.5 */
  function Output(r: Regs): (d: seq<Byte>)
    ensures |d| == 16
  {
    WordBytes(r.a) + WordBytes(r.b) + WordBytes(r.c) + WordBytes(r.d)
  }

  function Digest(m: seq<Byte>): (d: seq<Byte>)
    ensures |d| == 16
  {
    Output(Chain(INIT, Pad(m)))
  }

  // ---- The constants ----

  /** The sign of the sine of k. */
  function SineSign(k: nat): int { if k * 1000_0000 / 3141_5927 % 2 == 0 then 1 else -1 }

  // 4294967296 times twice the cosine of 1.
  const TWICE_COSINE := 4641161467

  // sin(k - 1) + sin(k + 1) == 2 * cos(1) * sin(k), for integer parts to within 4.
  predicate SineSum(before: int, middle: int, behind: int) {
    -4 * 0x1_0000_0000 < 0x1_0000_0000 * (before + behind) - TWICE_COSINE * middle < 4 * 0x1_0000_0000
  }

  function Signed(i: nat): int
    requires i < 64
  {
    var t: int := T(i);
    if SineSign(i + 1) == 1 then t else -t
  }

  lemma Constant(i: nat, value: int)
    requires i < 64 && T(i) == (if value > 0 then value else -value) && (value > 0 <==> SineSign(i + 1) == 1)
    ensures Signed(i) == value
  {
  }

  /** The constants are sines. */
  lemma ConstantsAreSines(i: nat)
    requires 0 < i < 63
    ensures SineSum(Signed(i - 1), Signed(i), Signed(i + 1))
  {
    hide Signed, SineSum, T;
    if i < 9 {
      Sines1(i);
    } else if i < 17 {
      Sines9(i);
    } else if i < 25 {
      Sines17(i);
    } else if i < 33 {
      Sines25(i);
    } else if i < 41 {
      Sines33(i);
    } else if i < 49 {
      Sines41(i);
    } else if i < 57 {
      Sines49(i);
    } else {
      Sines57(i);
    }
  }

  lemma FirstAndLast()
    ensures T(0) == 3614090360 && T(63) == 3951481745
  {
  }

  lemma Sines1(i: nat)
    requires 1 <= i < 9
    ensures SineSum(Signed(i - 1), Signed(i), Signed(i + 1))
  {
    Constant(0, 3614090360);
    Constant(1, 3905402710);
    Constant(2, 606105819);
    Constant(3, -3250441966);
    Constant(4, -4118548399);
    Constant(5, -1200080426);
    Constant(6, 2821735955);
    Constant(7, 4249261313);
    Constant(8, 1770035416);
    Constant(9, -2336552879);
    hide Signed, T;
  }

  lemma Sines9(i: nat)
    requires 9 <= i < 17
    ensures SineSum(Signed(i - 1), Signed(i), Signed(i + 1))
  {
    Constant(8, 1770035416);
    Constant(9, -2336552879);
    Constant(10, -4294925233);
    Constant(11, -2304563134);
    Constant(12, 1804603682);
    Constant(13, 4254626195);
    Constant(14, 2792965006);
    Constant(15, -1236535329);
    Constant(16, -4129170786);
    Constant(17, -3225465664);
    hide Signed, T;
  }

  lemma Sines17(i: nat)
    requires 17 <= i < 25
    ensures SineSum(Signed(i - 1), Signed(i), Signed(i + 1))
  {
    Constant(16, -4129170786);
    Constant(17, -3225465664);
    Constant(18, 643717713);
    Constant(19, 3921069994);
    Constant(20, 3593408605);
    Constant(21, -38016083);
    Constant(22, -3634488961);
    Constant(23, -3889429448);
    Constant(24, -568446438);
    Constant(25, 3275163606);
    hide Signed, T;
  }

  lemma Sines25(i: nat)
    requires 25 <= i < 33
    ensures SineSum(Signed(i - 1), Signed(i), Signed(i + 1))
  {
    Constant(24, -568446438);
    Constant(25, 3275163606);
    Constant(26, 4107603335);
    Constant(27, 1163531501);
    Constant(28, -2850285829);
    Constant(29, -4243563512);
    Constant(30, -1735328473);
    Constant(31, 2368359562);
    Constant(32, 4294588738);
    Constant(33, 2272392833);
    hide Signed, T;
  }

  lemma Sines33(i: nat)
    requires 33 <= i < 41
    ensures SineSum(Signed(i - 1), Signed(i), Signed(i + 1))
  {
    Constant(32, 4294588738);
    Constant(33, 2272392833);
    Constant(34, -1839030562);
    Constant(35, -4259657740);
    Constant(36, -2763975236);
    Constant(37, 1272893353);
    Constant(38, 4139469664);
    Constant(39, 3200236656);
    Constant(40, -681279174);
    Constant(41, -3936430074);
    hide Signed, T;
  }

  lemma Sines41(i: nat)
    requires 41 <= i < 49
    ensures SineSum(Signed(i - 1), Signed(i), Signed(i + 1))
  {
    Constant(40, -681279174);
    Constant(41, -3936430074);
    Constant(42, -3572445317);
    Constant(43, 76029189);
    Constant(44, 3654602809);
    Constant(45, 3873151461);
    Constant(46, 530742520);
    Constant(47, -3299628645);
    Constant(48, -4096336452);
    Constant(49, -1126891415);
    hide Signed, T;
  }

  lemma Sines49(i: nat)
    requires 49 <= i < 57
    ensures SineSum(Signed(i - 1), Signed(i), Signed(i + 1))
  {
    Constant(48, -4096336452);
    Constant(49, -1126891415);
    Constant(50, 2878612391);
    Constant(51, 4237533241);
    Constant(52, 1700485571);
    Constant(53, -2399980690);
    Constant(54, -4293915773);
    Constant(55, -2240044497);
    Constant(56, 1873313359);
    Constant(57, 4264355552);
    hide Signed, T;
  }

  lemma Sines57(i: nat)
    requires 57 <= i < 63
    ensures SineSum(Signed(i - 1), Signed(i), Signed(i + 1))
  {
    Constant(56, 1873313359);
    Constant(57, 4264355552);
    Constant(58, 2734768916);
    Constant(59, -1309151649);
    Constant(60, -4149444226);
    Constant(61, -3174756917);
    Constant(62, 718787259);
    Constant(63, 3951481745);
    hide Signed, T;
  }

  /** Words and shifts in the order of section 3.4. */
  lemma PublishedOrder(i: nat)
    requires i < 16
    ensures Index(i) == i
    ensures Index(16 + i) == [1, 6, 11, 0, 5, 10, 15, 4, 9, 14, 3, 8, 13, 2, 7, 12][i]
    ensures Index(32 + i) == [5, 8, 11, 14, 1, 4, 7, 10, 13, 0, 3, 6, 9, 12, 15, 2][i]
    ensures Index(48 + i) == [0, 7, 14, 5, 12, 3, 10, 1, 8, 15, 6, 13, 4, 11, 2, 9][i]
    ensures Shift(i) == [7, 12, 17, 22][i % 4] && Shift(16 + i) == [5, 9, 14, 20][i % 4]
    ensures Shift(32 + i) == [4, 11, 16, 23][i % 4] && Shift(48 + i) == [6, 10, 15, 21][i % 4]
  {
  }

  /** The registers begin as the bytes 01, 23, 45 and so on. */
  lemma PublishedBytes()
    ensures Output(INIT)
      == [0x01, 0x23, 0x45, 0x67, 0x89, 0xab, 0xcd, 0xef, 0xfe, 0xdc, 0xba, 0x98, 0x76, 0x54, 0x32, 0x10]
  {
    assert WordBytes(0x67452301) == [0x01, 0x23, 0x45, 0x67] && WordBytes(0xefcdab89) == [0x89, 0xab, 0xcd, 0xef];
    assert WordBytes(0x98badcfe) == [0xfe, 0xdc, 0xba, 0x98] && WordBytes(0x10325476) == [0x76, 0x54, 0x32, 0x10];
    hide WordBytes;
  }

  /** A rotation by 8 bits moves the top byte to the bottom. */
  lemma RotatedByte(w: Word32)
    ensures Rotl(w, 8) == w % 0x100_0000 * 0x100 + w / 0x100_0000
  {
    PowersOf2();
    assert PowerOf2(24) == 0x100_0000 by {
      assert PowerOf2(32) == 0x100 * PowerOf2(24);
    }
    hide PowerOf2;
    assert w * 0x100 == w / 0x100_0000 * 0x1_0000_0000 + w % 0x100_0000 * 0x100;
  }

  /** The auxiliary functions choose, choose, add, and do what the fourth table says. */
  lemma PublishedBits(x: bool, y: bool, z: bool)
    ensures FBit(x, y, z) == (if x then y else z) && GBit(x, y, z) == (if z then x else y)
    ensures HBit(x, y, z) <==> (x && y && z) || (x && !y && !z) || (!x && y && !z) || (!x && !y && z)
    ensures IBit(x, y, z) <==> if x || !z then !y else y
  {
  }

  /** A padded message: the byte 80, as few zeros as there can be, and the number of bits, the lowest byte first. */
  lemma PaddedShape(m: seq<Byte>)
    requires |m| < 0x2000_0000
    ensures var p, n := Pad(m), |m|;
      && n + 9 <= |p| < n + 73 && |p| % 64 == 0 && p[..n] == m && p[n] == 0x80
      && (forall k :: n < k < |p| - 8 ==> p[k] == 0)
      && p[|p| - 8..] == WordBytes(8 * n) + [0, 0, 0, 0]
  {
    var z := ZerosNeeded(|m|);
    assert LengthBytes(|m|) == WordBytes(8 * |m|) + [0, 0, 0, 0];
    hide WordBytes;
    PadParts(m, z);
  }

  lemma PadParts(m: seq<Byte>, z: nat)
    requires z == ZerosNeeded(|m|)
    ensures var p, n := Pad(m), |m|;
      && |p| == n + 9 + z && p[..n] == m && p[n] == 0x80 && p[|p| - 8..] == LengthBytes(n)
      && forall k :: n < k < |p| - 8 ==> p[k] == 0
  {
    hide ZerosNeeded, LengthBytes;
  }
}

// MD5Transform: the sixty-four steps written out.
module Md5Transform {
  import opened Bytes
  import opened Bits
  import opened Md5Spec

  predicate F1Bit(x: bool, y: bool, z: bool) { z != (x && (y != z)) }

  function F1(x: Word32, y: Word32, z: Word32): Word32 { Bitwise32(F1Bit, x, y, z) }

  function F2(x: Word32, y: Word32, z: Word32): Word32 { F1(z, x, y) }

  function F3(x: Word32, y: Word32, z: Word32): Word32 { H(x, y, z) }

  function F4(x: Word32, y: Word32, z: Word32): Word32 { I(x, y, z) }

  lemma {:induction false} SelectBits(x: nat, y: nat, z: nat, n: nat)
    ensures Bitwise(F1Bit, x, y, z, n) == Bitwise(FBit, x, y, z, n)
    ensures Bitwise(F1Bit, z, x, y, n) == Bitwise(GBit, x, y, z, n)
  {
    if n > 0 {
      SelectBits(x / 2, y / 2, z / 2, n - 1);
    }
  }

  /** The functions that save an operation are those of the standard. */
  lemma SameFunctions(x: Word32, y: Word32, z: Word32)
    ensures F1(x, y, z) == F(x, y, z) && F2(x, y, z) == G(x, y, z)
  {
    SelectBits(x, y, z, 32);
    hide Bitwise;
  }

  /** One step: the function value and the data are added, the sum is rotated, and x is added to it. */
  function Md5Step(f: Word32, w: Word32, x: Word32, data: Word32, s: nat): Word32
    requires 0 < s < 32
  {
    Add(x, Rotl(Add(Add(w, f), data), s))
  }

  function Faster(i: nat, x: Word32, y: Word32, z: Word32): Word32 {
    if i < 16 then F1(x, y, z) else if i < 32 then F2(x, y, z) else if i < 48 then F3(x, y, z) else F4(x, y, z)
  }

  /** One written-out step is the standard's step i, with the registers renamed. */
  lemma Advance(r: Regs, x: seq<Word32>, from: nat, j: nat, s: Regs, k: nat, t: Word32, sh: nat)
    requires |x| == 16 && from + j < 64 && Steps(r, x, from, j) == s
    requires k == Index(from + j) && t == T(from + j) && sh == Shift(from + j)
    ensures Steps(r, x, from, j + 1) == Regs(s.d,
      Md5Step(Faster(from + j, s.b, s.c, s.d), s.a, s.b, Add(x[k], t), sh), s.b, s.c)
  {
    hide F, G, H, I, F1, F2, Rotl, Add, Index, T, Shift;
    SameFunctions(s.b, s.c, s.d);
  }

  method Round1FirstHalf(r: Regs, x: seq<Word32>) returns (a: Word32, b: Word32, c: Word32, d: Word32)
    requires |x| == 16
    ensures Regs(a, b, c, d) == Steps(r, x, 0, 8)
  {
    hide Rotl, Add, Md5Step, F, G, H, I, F1, F2, F3, F4;
    a, b, c, d := r.a, r.b, r.c, r.d;
    assert Steps(r, x, 0, 0) == r;
    hide Steps;
    Advance(r, x, 0, 0, r, 0, 0xd76aa478, 7);
    a := Md5Step(F1(b, c, d), a, b, Add(x[0], 0xd76aa478), 7);
    Advance(r, x, 0, 1, Regs(d, a, b, c), 1, 0xe8c7b756, 12);
    d := Md5Step(F1(a, b, c), d, a, Add(x[1], 0xe8c7b756), 12);
    Advance(r, x, 0, 2, Regs(c, d, a, b), 2, 0x242070db, 17);
    c := Md5Step(F1(d, a, b), c, d, Add(x[2], 0x242070db), 17);
    Advance(r, x, 0, 3, Regs(b, c, d, a), 3, 0xc1bdceee, 22);
    b := Md5Step(F1(c, d, a), b, c, Add(x[3], 0xc1bdceee), 22);
    Advance(r, x, 0, 4, Regs(a, b, c, d), 4, 0xf57c0faf, 7);
    a := Md5Step(F1(b, c, d), a, b, Add(x[4], 0xf57c0faf), 7);
    Advance(r, x, 0, 5, Regs(d, a, b, c), 5, 0x4787c62a, 12);
    d := Md5Step(F1(a, b, c), d, a, Add(x[5], 0x4787c62a), 12);
    Advance(r, x, 0, 6, Regs(c, d, a, b), 6, 0xa8304613, 17);
    c := Md5Step(F1(d, a, b), c, d, Add(x[6], 0xa8304613), 17);
    Advance(r, x, 0, 7, Regs(b, c, d, a), 7, 0xfd469501, 22);
    b := Md5Step(F1(c, d, a), b, c, Add(x[7], 0xfd469501), 22);
  }

  method Round1SecondHalf(r: Regs, x: seq<Word32>) returns (a: Word32, b: Word32, c: Word32, d: Word32)
    requires |x| == 16
    ensures Regs(a, b, c, d) == Steps(r, x, 8, 8)
  {
    hide Rotl, Add, Md5Step, F, G, H, I, F1, F2, F3, F4;
    a, b, c, d := r.a, r.b, r.c, r.d;
    assert Steps(r, x, 8, 0) == r;
    hide Steps;
    Advance(r, x, 8, 0, r, 8, 0x698098d8, 7);
    a := Md5Step(F1(b, c, d), a, b, Add(x[8], 0x698098d8), 7);
    Advance(r, x, 8, 1, Regs(d, a, b, c), 9, 0x8b44f7af, 12);
    d := Md5Step(F1(a, b, c), d, a, Add(x[9], 0x8b44f7af), 12);
    Advance(r, x, 8, 2, Regs(c, d, a, b), 10, 0xffff5bb1, 17);
    c := Md5Step(F1(d, a, b), c, d, Add(x[10], 0xffff5bb1), 17);
    Advance(r, x, 8, 3, Regs(b, c, d, a), 11, 0x895cd7be, 22);
    b := Md5Step(F1(c, d, a), b, c, Add(x[11], 0x895cd7be), 22);
    Advance(r, x, 8, 4, Regs(a, b, c, d), 12, 0x6b901122, 7);
    a := Md5Step(F1(b, c, d), a, b, Add(x[12], 0x6b901122), 7);
    Advance(r, x, 8, 5, Regs(d, a, b, c), 13, 0xfd987193, 12);
    d := Md5Step(F1(a, b, c), d, a, Add(x[13], 0xfd987193), 12);
    Advance(r, x, 8, 6, Regs(c, d, a, b), 14, 0xa679438e, 17);
    c := Md5Step(F1(d, a, b), c, d, Add(x[14], 0xa679438e), 17);
    Advance(r, x, 8, 7, Regs(b, c, d, a), 15, 0x49b40821, 22);
    b := Md5Step(F1(c, d, a), b, c, Add(x[15], 0x49b40821), 22);
  }

  method Round2FirstHalf(r: Regs, x: seq<Word32>) returns (a: Word32, b: Word32, c: Word32, d: Word32)
    requires |x| == 16
    ensures Regs(a, b, c, d) == Steps(r, x, 16, 8)
  {
    hide Rotl, Add, Md5Step, F, G, H, I, F1, F2, F3, F4;
    a, b, c, d := r.a, r.b, r.c, r.d;
    assert Steps(r, x, 16, 0) == r;
    hide Steps;
    Advance(r, x, 16, 0, r, 1, 0xf61e2562, 5);
    a := Md5Step(F2(b, c, d), a, b, Add(x[1], 0xf61e2562), 5);
    Advance(r, x, 16, 1, Regs(d, a, b, c), 6, 0xc040b340, 9);
    d := Md5Step(F2(a, b, c), d, a, Add(x[6], 0xc040b340), 9);
    Advance(r, x, 16, 2, Regs(c, d, a, b), 11, 0x265e5a51, 14);
    c := Md5Step(F2(d, a, b), c, d, Add(x[11], 0x265e5a51), 14);
    Advance(r, x, 16, 3, Regs(b, c, d, a), 0, 0xe9b6c7aa, 20);
    b := Md5Step(F2(c, d, a), b, c, Add(x[0], 0xe9b6c7aa), 20);
    Advance(r, x, 16, 4, Regs(a, b, c, d), 5, 0xd62f105d, 5);
    a := Md5Step(F2(b, c, d), a, b, Add(x[5], 0xd62f105d), 5);
    Advance(r, x, 16, 5, Regs(d, a, b, c), 10, 0x02441453, 9);
    d := Md5Step(F2(a, b, c), d, a, Add(x[10], 0x02441453), 9);
    Advance(r, x, 16, 6, Regs(c, d, a, b), 15, 0xd8a1e681, 14);
    c := Md5Step(F2(d, a, b), c, d, Add(x[15], 0xd8a1e681), 14);
    Advance(r, x, 16, 7, Regs(b, c, d, a), 4, 0xe7d3fbc8, 20);
    b := Md5Step(F2(c, d, a), b, c, Add(x[4], 0xe7d3fbc8), 20);
  }

  method Round2SecondHalf(r: Regs, x: seq<Word32>) returns (a: Word32, b: Word32, c: Word32, d: Word32)
    requires |x| == 16
    ensures Regs(a, b, c, d) == Steps(r, x, 24, 8)
  {
    hide Rotl, Add, Md5Step, F, G, H, I, F1, F2, F3, F4;
    a, b, c, d := r.a, r.b, r.c, r.d;
    assert Steps(r, x, 24, 0) == r;
    hide Steps;
    Advance(r, x, 24, 0, r, 9, 0x21e1cde6, 5);
    a := Md5Step(F2(b, c, d), a, b, Add(x[9], 0x21e1cde6), 5);
    Advance(r, x, 24, 1, Regs(d, a, b, c), 14, 0xc33707d6, 9);
    d := Md5Step(F2(a, b, c), d, a, Add(x[14], 0xc33707d6), 9);
    Advance(r, x, 24, 2, Regs(c, d, a, b), 3, 0xf4d50d87, 14);
    c := Md5Step(F2(d, a, b), c, d, Add(x[3], 0xf4d50d87), 14);
    Advance(r, x, 24, 3, Regs(b, c, d, a), 8, 0x455a14ed, 20);
    b := Md5Step(F2(c, d, a), b, c, Add(x[8], 0x455a14ed), 20);
    Advance(r, x, 24, 4, Regs(a, b, c, d), 13, 0xa9e3e905, 5);
    a := Md5Step(F2(b, c, d), a, b, Add(x[13], 0xa9e3e905), 5);
    Advance(r, x, 24, 5, Regs(d, a, b, c), 2, 0xfcefa3f8, 9);
    d := Md5Step(F2(a, b, c), d, a, Add(x[2], 0xfcefa3f8), 9);
    Advance(r, x, 24, 6, Regs(c, d, a, b), 7, 0x676f02d9, 14);
    c := Md5Step(F2(d, a, b), c, d, Add(x[7], 0x676f02d9), 14);
    Advance(r, x, 24, 7, Regs(b, c, d, a), 12, 0x8d2a4c8a, 20);
    b := Md5Step(F2(c, d, a), b, c, Add(x[12], 0x8d2a4c8a), 20);
  }

  method Round3FirstHalf(r: Regs, x: seq<Word32>) returns (a: Word32, b: Word32, c: Word32, d: Word32)
    requires |x| == 16
    ensures Regs(a, b, c, d) == Steps(r, x, 32, 8)
  {
    hide Rotl, Add, Md5Step, F, G, H, I, F1, F2, F3, F4;
    a, b, c, d := r.a, r.b, r.c, r.d;
    assert Steps(r, x, 32, 0) == r;
    hide Steps;
    Advance(r, x, 32, 0, r, 5, 0xfffa3942, 4);
    a := Md5Step(F3(b, c, d), a, b, Add(x[5], 0xfffa3942), 4);
    Advance(r, x, 32, 1, Regs(d, a, b, c), 8, 0x8771f681, 11);
    d := Md5Step(F3(a, b, c), d, a, Add(x[8], 0x8771f681), 11);
    Advance(r, x, 32, 2, Regs(c, d, a, b), 11, 0x6d9d6122, 16);
    c := Md5Step(F3(d, a, b), c, d, Add(x[11], 0x6d9d6122), 16);
    Advance(r, x, 32, 3, Regs(b, c, d, a), 14, 0xfde5380c, 23);
    b := Md5Step(F3(c, d, a), b, c, Add(x[14], 0xfde5380c), 23);
    Advance(r, x, 32, 4, Regs(a, b, c, d), 1, 0xa4beea44, 4);
    a := Md5Step(F3(b, c, d), a, b, Add(x[1], 0xa4beea44), 4);
    Advance(r, x, 32, 5, Regs(d, a, b, c), 4, 0x4bdecfa9, 11);
    d := Md5Step(F3(a, b, c), d, a, Add(x[4], 0x4bdecfa9), 11);
    Advance(r, x, 32, 6, Regs(c, d, a, b), 7, 0xf6bb4b60, 16);
    c := Md5Step(F3(d, a, b), c, d, Add(x[7], 0xf6bb4b60), 16);
    Advance(r, x, 32, 7, Regs(b, c, d, a), 10, 0xbebfbc70, 23);
    b := Md5Step(F3(c, d, a), b, c, Add(x[10], 0xbebfbc70), 23);
  }

  method Round3SecondHalf(r: Regs, x: seq<Word32>) returns (a: Word32, b: Word32, c: Word32, d: Word32)
    requires |x| == 16
    ensures Regs(a, b, c, d) == Steps(r, x, 40, 8)
  {
    hide Rotl, Add, Md5Step, F, G, H, I, F1, F2, F3, F4;
    a, b, c, d := r.a, r.b, r.c, r.d;
    assert Steps(r, x, 40, 0) == r;
    hide Steps;
    Advance(r, x, 40, 0, r, 13, 0x289b7ec6, 4);
    a := Md5Step(F3(b, c, d), a, b, Add(x[13], 0x289b7ec6), 4);
    Advance(r, x, 40, 1, Regs(d, a, b, c), 0, 0xeaa127fa, 11);
    d := Md5Step(F3(a, b, c), d, a, Add(x[0], 0xeaa127fa), 11);
    Advance(r, x, 40, 2, Regs(c, d, a, b), 3, 0xd4ef3085, 16);
    c := Md5Step(F3(d, a, b), c, d, Add(x[3], 0xd4ef3085), 16);
    Advance(r, x, 40, 3, Regs(b, c, d, a), 6, 0x04881d05, 23);
    b := Md5Step(F3(c, d, a), b, c, Add(x[6], 0x04881d05), 23);
    Advance(r, x, 40, 4, Regs(a, b, c, d), 9, 0xd9d4d039, 4);
    a := Md5Step(F3(b, c, d), a, b, Add(x[9], 0xd9d4d039), 4);
    Advance(r, x, 40, 5, Regs(d, a, b, c), 12, 0xe6db99e5, 11);
    d := Md5Step(F3(a, b, c), d, a, Add(x[12], 0xe6db99e5), 11);
    Advance(r, x, 40, 6, Regs(c, d, a, b), 15, 0x1fa27cf8, 16);
    c := Md5Step(F3(d, a, b), c, d, Add(x[15], 0x1fa27cf8), 16);
    Advance(r, x, 40, 7, Regs(b, c, d, a), 2, 0xc4ac5665, 23);
    b := Md5Step(F3(c, d, a), b, c, Add(x[2], 0xc4ac5665), 23);
  }

  method Round4FirstHalf(r: Regs, x: seq<Word32>) returns (a: Word32, b: Word32, c: Word32, d: Word32)
    requires |x| == 16
    ensures Regs(a, b, c, d) == Steps(r, x, 48, 8)
  {
    hide Rotl, Add, Md5Step, F, G, H, I, F1, F2, F3, F4;
    a, b, c, d := r.a, r.b, r.c, r.d;
    assert Steps(r, x, 48, 0) == r;
    hide Steps;
    Advance(r, x, 48, 0, r, 0, 0xf4292244, 6);
    a := Md5Step(F4(b, c, d), a, b, Add(x[0], 0xf4292244), 6);
    Advance(r, x, 48, 1, Regs(d, a, b, c), 7, 0x432aff97, 10);
    d := Md5Step(F4(a, b, c), d, a, Add(x[7], 0x432aff97), 10);
    Advance(r, x, 48, 2, Regs(c, d, a, b), 14, 0xab9423a7, 15);
    c := Md5Step(F4(d, a, b), c, d, Add(x[14], 0xab9423a7), 15);
    Advance(r, x, 48, 3, Regs(b, c, d, a), 5, 0xfc93a039, 21);
    b := Md5Step(F4(c, d, a), b, c, Add(x[5], 0xfc93a039), 21);
    Advance(r, x, 48, 4, Regs(a, b, c, d), 12, 0x655b59c3, 6);
    a := Md5Step(F4(b, c, d), a, b, Add(x[12], 0x655b59c3), 6);
    Advance(r, x, 48, 5, Regs(d, a, b, c), 3, 0x8f0ccc92, 10);
    d := Md5Step(F4(a, b, c), d, a, Add(x[3], 0x8f0ccc92), 10);
    Advance(r, x, 48, 6, Regs(c, d, a, b), 10, 0xffeff47d, 15);
    c := Md5Step(F4(d, a, b), c, d, Add(x[10], 0xffeff47d), 15);
    Advance(r, x, 48, 7, Regs(b, c, d, a), 1, 0x85845dd1, 21);
    b := Md5Step(F4(c, d, a), b, c, Add(x[1], 0x85845dd1), 21);
  }

  method Round4SecondHalf(r: Regs, x: seq<Word32>) returns (a: Word32, b: Word32, c: Word32, d: Word32)
    requires |x| == 16
    ensures Regs(a, b, c, d) == Steps(r, x, 56, 8)
  {
    hide Rotl, Add, Md5Step, F, G, H, I, F1, F2, F3, F4;
    a, b, c, d := r.a, r.b, r.c, r.d;
    assert Steps(r, x, 56, 0) == r;
    hide Steps;
    Advance(r, x, 56, 0, r, 8, 0x6fa87e4f, 6);
    a := Md5Step(F4(b, c, d), a, b, Add(x[8], 0x6fa87e4f), 6);
    Advance(r, x, 56, 1, Regs(d, a, b, c), 15, 0xfe2ce6e0, 10);
    d := Md5Step(F4(a, b, c), d, a, Add(x[15], 0xfe2ce6e0), 10);
    Advance(r, x, 56, 2, Regs(c, d, a, b), 6, 0xa3014314, 15);
    c := Md5Step(F4(d, a, b), c, d, Add(x[6], 0xa3014314), 15);
    Advance(r, x, 56, 3, Regs(b, c, d, a), 13, 0x4e0811a1, 21);
    b := Md5Step(F4(c, d, a), b, c, Add(x[13], 0x4e0811a1), 21);
    Advance(r, x, 56, 4, Regs(a, b, c, d), 4, 0xf7537e82, 6);
    a := Md5Step(F4(b, c, d), a, b, Add(x[4], 0xf7537e82), 6);
    Advance(r, x, 56, 5, Regs(d, a, b, c), 11, 0xbd3af235, 10);
    d := Md5Step(F4(a, b, c), d, a, Add(x[11], 0xbd3af235), 10);
    Advance(r, x, 56, 6, Regs(c, d, a, b), 2, 0x2ad7d2bb, 15);
    c := Md5Step(F4(d, a, b), c, d, Add(x[2], 0x2ad7d2bb), 15);
    Advance(r, x, 56, 7, Regs(b, c, d, a), 9, 0xeb86d391, 21);
    b := Md5Step(F4(c, d, a), b, c, Add(x[9], 0xeb86d391), 21);
  }

  lemma {:induction false} StepsSplit(r: Regs, x: seq<Word32>, from: nat, j: nat, k: nat)
    requires |x| == 16 && from + j + k <= 64
    ensures Steps(r, x, from, j + k) == Steps(Steps(r, x, from, j), x, from + j, k)
  {
    hide Step;
    if k > 0 {
      StepsSplit(r, x, from, j, k - 1);
    }
  }

  lemma {:induction false} SixtyFour(r: Regs, x: seq<Word32>, r1: Regs, r2: Regs, r3: Regs, r4: Regs, r5: Regs,
    r6: Regs, r7: Regs, r8: Regs)
    requires |x| == 16
    requires r1 == Steps(r, x, 0, 8) && r2 == Steps(r1, x, 8, 8) && r3 == Steps(r2, x, 16, 8)
      && r4 == Steps(r3, x, 24, 8)
    requires r5 == Steps(r4, x, 32, 8) && r6 == Steps(r5, x, 40, 8) && r7 == Steps(r6, x, 48, 8)
      && r8 == Steps(r7, x, 56, 8)
    ensures r8 == Steps(r, x, 0, 64)
  {
    hide Steps;
    StepsSplit(r, x, 0, 8, 8);
    StepsSplit(r, x, 0, 16, 8);
    StepsSplit(r, x, 0, 24, 8);
    StepsSplit(r, x, 0, 32, 8);
    StepsSplit(r, x, 0, 40, 8);
    StepsSplit(r, x, 0, 48, 8);
    StepsSplit(r, x, 0, 56, 8);
  }

  /** The sixty-four steps on copies of the registers. */
  method AllRounds(r: Regs, x: seq<Word32>) returns (s: Regs)
    requires |x| == 16
    ensures s == Steps(r, x, 0, 64)
  {
    hide Steps;
    var a, b, c, d := Round1FirstHalf(r, x);
    ghost var r1 := Regs(a, b, c, d);
    a, b, c, d := Round1SecondHalf(Regs(a, b, c, d), x);
    ghost var r2 := Regs(a, b, c, d);
    a, b, c, d := Round2FirstHalf(Regs(a, b, c, d), x);
    ghost var r3 := Regs(a, b, c, d);
    a, b, c, d := Round2SecondHalf(Regs(a, b, c, d), x);
    ghost var r4 := Regs(a, b, c, d);
    a, b, c, d := Round3FirstHalf(Regs(a, b, c, d), x);
    ghost var r5 := Regs(a, b, c, d);
    a, b, c, d := Round3SecondHalf(Regs(a, b, c, d), x);
    ghost var r6 := Regs(a, b, c, d);
    a, b, c, d := Round4FirstHalf(Regs(a, b, c, d), x);
    ghost var r7 := Regs(a, b, c, d);
    a, b, c, d := Round4SecondHalf(Regs(a, b, c, d), x);
    s := Regs(a, b, c, d);
    SixtyFour(r, x, r1, r2, r3, r4, r5, r6, r7, s);
  }
}

// The streaming interface: MD5Init, MD5Update, MD5Final and mg_md5.
module Md5Stream {
  import opened Bytes
  import opened Md5Spec
  import opened Md5Transform

  lemma ChainStep(r: Regs, m: seq<Byte>, block: seq<Byte>)
    requires |m| % 64 == 0 && |block| == 64
    ensures |m + block| % 64 == 0 && Chain(r, m + block) == Compress(Chain(r, m), Words(block))
  {
    assert (m + block)[..|m|] == m && (m + block)[|m|..] == block;
  }

  class Md5Context {
    const buf: array<Word32>
    const bits: array<Word32>
    const data: array<Byte>
    // Everything that MD5Update has been given.
    ghost var message: seq<Byte>

    predicate Shape() {
      buf.Length == 4 && bits.Length == 2 && data.Length == 64 && buf != bits
    }

    function Registers(): Regs
      reads buf
      requires Shape()
    {
      Regs(buf[0], buf[1], buf[2], buf[3])
    }

    /** The length of the part of the message that has been through MD5Transform. */
    ghost function Whole(): (n: int)
      reads this
      ensures 0 <= n <= |message| && n % 64 == 0
    {
      WholeLength(|message|)
    }

    /** The chaining value of all full blocks, the bytes left over, and the number of bits modulo 2^64. */
    ghost predicate Valid()
      reads this, buf, bits, data
    {
      && Shape()
      && Registers() == Chain(INIT, message[..Whole()])
      && data[..|message| % 64] == message[Whole()..]
      && BitsAre(|message|)
    }

    ghost predicate BitsAre(n: nat)
      reads bits
      requires Shape()
    {
      bits[0] == 8 * n % 0x1_0000_0000 && bits[1] == 8 * n / 0x1_0000_0000 % 0x1_0000_0000
    }

    constructor ()
      ensures Valid() && message == [] && fresh(buf) && fresh(bits) && fresh(data)
    {
      var b := new Word32[4];
      b[0], b[1], b[2], b[3] := 0x67452301, 0xefcdab89, 0x98badcfe, 0x10325476;
      var t := new Word32[2];
      t[0], t[1] := 0, 0;
      buf, bits, data, message := b, t, new Byte[64](_ => 0), [];
      hide Compress;
    }

    /** MD5Transform on the words of `data`, the least significant byte of each first. */
    method Transform()
      requires Shape()
      modifies buf
      ensures Registers() == Compress(old(Registers()), Words(data[..]))
    {
      hide Steps, Words;
      var r := Registers();
      var s := AllRounds(r, Words(data[..]));
      buf[0], buf[1], buf[2], buf[3] := Add(r.a, s.a), Add(r.b, s.b), Add(r.c, s.c), Add(r.d, s.d);
    }

    /** memcpy into `data`. */
    method CopyIn(at: nat, s: seq<Byte>)
      requires Shape() && at + |s| <= 64
      modifies data
      ensures data[..] == old(data[..at]) + s + old(data[at + |s|..])
    {
      CopyTo(data, at, s);
    }

    /** Adds 8 * len to the number of bits, with the carry between the two words. */
    method CountBits(len: Word32, ghost n: nat)
      requires Shape() && BitsAre(n)
      modifies bits
      ensures BitsAre(n + len)
    {
      Carry(n, len);
      hide Add;
      var t := bits[0];
      bits[0] := Add(t, len * 8 % 0x1_0000_0000);
      if bits[0] < t {
        bits[1] := Add(bits[1], 1);
      }
      bits[1] := Add(bits[1], len / 0x2000_0000);
    }

    /** A full block in `data` goes through MD5Transform. */
    method AbsorbBlock(ghost m: seq<Byte>)
      requires Shape() && |m| % 64 == 0 && Registers() == Chain(INIT, m)
      modifies buf
      ensures |m + data[..]| % 64 == 0 && Registers() == Chain(INIT, m + data[..])
    {
      hide Compress, Words, Chain;
      ChainStep(INIT, m, data[..]);
      Transform();
    }

    /** How many bytes wait in `data`, as the low word of the bit count tells. */
    method LeftOver() returns (t: nat)
      requires Valid()
      ensures t == |message| % 64
    {
      hide Chain;
      t := bits[0] / 8 % 64;
      BufferedBytes(|message|);
    }

    /** MD5Update */
    method Update(s: seq<Byte>)
      requires Valid() && |s| < 0x1_0000_0000
      modifies this`message, buf, bits, data
      ensures Valid() && message == old(message) + s
    {
      hide Chain, BitsAre;
      var t := LeftOver();
      CountBits(|s|, |message|);
      var pos := 0;
      message := message + s;
      if t != 0 && |s| < 64 - t {
        AppendToBlock(t, s, old(message));
        return;
      }
      if t != 0 {
        pos := FillBlock(t, s, old(message));
      } else {
        assert old(message)[..|old(message)|] == old(message) + s[..0];
      }
      WholeBlocks(pos, s, old(message));
    }

    /** All of s fits behind the bytes that wait. */
    method AppendToBlock(t: nat, s: seq<Byte>, ghost m: seq<Byte>)
      requires Shape() && message == m + s && BitsAre(|message|) && t == |m| % 64 && |s| < 64 - t
      requires Registers() == Chain(INIT, m[..WholeLength(|m|)]) && data[..t] == m[WholeLength(|m|)..]
      modifies data
      ensures Valid()
    {
      hide Chain, BitsAre;
      CopyIn(t, s);
      Appended(m, s);
      assert data[..t + |s|] == m[|m| - t..] + s;
    }

    /** The whole blocks of s from pos on, and then the bytes that are left over. */
    method WholeBlocks(pos0: nat, s: seq<Byte>, ghost m: seq<Byte>)
      requires Shape() && message == m + s && BitsAre(|message|) && pos0 <= |s| && (|m| + pos0) % 64 == 0
      requires |m + s[..pos0]| % 64 == 0 && Registers() == Chain(INIT, m + s[..pos0])
      modifies buf, data
      ensures Valid()
    {
      hide Chain, BitsAre;
      var pos := AbsorbBlocks(pos0, s, m);
      CopyIn(0, s[pos..]);
      Rest(m, s, pos);
    }

    /** The first bytes of s complete the block in `data`. */
    method FillBlock(t: nat, s: seq<Byte>, ghost m: seq<Byte>) returns (pos: nat)
      requires Shape() && t == |m| % 64 > 0 && |s| >= 64 - t
      requires Registers() == Chain(INIT, m[..WholeLength(|m|)]) && data[..t] == m[WholeLength(|m|)..]
      modifies buf, data
      ensures pos == 64 - t && (|m| + pos) % 64 == 0
      ensures |m + s[..pos]| % 64 == 0 && Registers() == Chain(INIT, m + s[..pos])
    {
      hide Chain;
      pos := 64 - t;
      CopyIn(t, s[..pos]);
      assert data[..] == m[|m| - t..] + s[..pos];
      AbsorbBlock(m[..|m| - t]);
      assert m[..|m| - t] + (m[|m| - t..] + s[..pos]) == m + s[..pos];
    }

    /** The following whole blocks of s. */
    method AbsorbBlocks(pos0: nat, s: seq<Byte>, ghost m: seq<Byte>) returns (pos: nat)
      requires Shape() && pos0 <= |s| && (|m| + pos0) % 64 == 0
      requires |m + s[..pos0]| % 64 == 0 && Registers() == Chain(INIT, m + s[..pos0])
      modifies buf, data
      ensures pos0 <= pos <= |s| < pos + 64 && (|m| + pos) % 64 == 0
      ensures |m + s[..pos]| % 64 == 0 && Registers() == Chain(INIT, m + s[..pos])
    {
      hide Chain;
      pos := pos0;
      while |s| - pos >= 64
        invariant pos0 <= pos <= |s| && (|m| + pos) % 64 == 0
        invariant |m + s[..pos]| % 64 == 0 && Registers() == Chain(INIT, m + s[..pos])
        modifies buf, data
      {
        CopyIn(0, s[pos..pos + 64]);
        assert data[..] == s[pos..pos + 64];
        AbsorbBlock(m + s[..pos]);
        assert m + s[..pos] + s[pos..pos + 64] == m + s[..pos + 64];
        pos := pos + 64;
      }
    }

    /** The first branch of MD5Final: two lots of padding. */
    method PadFirstBlock(count: nat)
      requires Valid() && count == |message| % 64 && 55 < count
      modifies buf, data
      ensures |message + [0x80] + Zeros(63 - count)| % 64 == 0
      ensures Registers() == Chain(INIT, message + [0x80] + Zeros(63 - count)) && data[..56] == Zeros(56)
    {
      hide Chain;
      ghost var w := Whole();
      CopyIn(count, [0x80]);
      // zeros up to the end of this block
      CopyIn(count + 1, Zeros(63 - count));
      assert data[..] == message[w..] + [0x80] + Zeros(63 - count);
      AbsorbBlock(message[..w]);
      assert message[..w] + (message[w..] + [0x80] + Zeros(63 - count)) == message + [0x80] + Zeros(63 - count);
      // and another block of zeros up to the length
      CopyIn(0, Zeros(56));
      assert data[..56] == Zeros(56);
    }

    /** Appends the length in bits and transforms the last block. */
    method LastBlock(ghost m: seq<Byte>)
      requires Shape() && |m| % 64 == 0 && Registers() == Chain(INIT, m)
      modifies data, buf
      ensures |m + data[..56] + WordBytes(bits[0]) + WordBytes(bits[1])| % 64 == 0 && data[..56] == old(data[..56])
      ensures Registers() == Chain(INIT, m + data[..56] + WordBytes(bits[0]) + WordBytes(bits[1]))
    {
      hide Chain, WordBytes;
      CopyIn(56, WordBytes(bits[0]) + WordBytes(bits[1]));
      assert data[..] == data[..56] + (WordBytes(bits[0]) + WordBytes(bits[1]));
      AbsorbBlock(m);
      assert m + data[..] == m + data[..56] + WordBytes(bits[0]) + WordBytes(bits[1]);
    }

    /** MD5Final. The context is of no use afterwards. */
    method Final() returns (digest: seq<Byte>)
      requires Valid()
      modifies buf, data
      ensures digest == Digest(message)
    {
      hide Chain, Pad, WordBytes, Zeros;
      ghost var m, w := message, Whole();
      var count := LeftOver();
      if 63 - count < 8 {
        PadFirstBlock(count);
        LongPad(m);
        LastBlock(m + [0x80] + Zeros(63 - count));
      } else {
        CopyIn(count, [0x80]);
        // zeros up to the length
        CopyIn(count + 1, Zeros(55 - count));
        assert data[..56] == m[w..] + [0x80] + Zeros(55 - count);
        ShortPad(m);
        LastBlock(m[..w]);
      }
      digest := WordBytes(buf[0]) + WordBytes(buf[1]) + WordBytes(buf[2]) + WordBytes(buf[3]);
    }
  }

  /** The length of all full blocks of n bytes. */
  ghost function WholeLength(n: nat): (w: nat)
    ensures w <= n && w % 64 == 0
  {
    n - n % 64
  }

  /** The low word of the bit count tells how many bytes are left over. */
  lemma BufferedBytes(n: nat)
    ensures 8 * n % 0x1_0000_0000 / 8 % 64 == n % 64
  {
    LowBits(n);
    Remainder(n);
  }

  lemma LowBits(n: nat)
    ensures 8 * n % 0x1_0000_0000 == 8 * (n % 0x2000_0000)
  {
    assert 8 * n == 0x1_0000_0000 * (n / 0x2000_0000) + 8 * (n % 0x2000_0000);
  }

  lemma Remainder(n: nat)
    ensures n % 0x2000_0000 % 64 == n % 64
  {
    var r := n % 0x2000_0000;
    assert n == 64 * (0x80_0000 * (n / 0x2000_0000) + r / 64) + r % 64;
  }

  /** Bytes that do not fill the block are appended to the ones left over. */
  lemma Appended(m: seq<Byte>, s: seq<Byte>)
    requires |m| % 64 + |s| < 64
    ensures var w := |m| - |m| % 64;
      && |m + s| % 64 == |m| % 64 + |s| && (m + s)[..w] == m[..w] && (m + s)[w..] == m[w..] + s
  {
    assert |m + s| == 64 * (|m| / 64) + (|m| % 64 + |s|);
  }

  /** What is left over behind whole blocks. */
  lemma Rest(m: seq<Byte>, s: seq<Byte>, pos: nat)
    requires pos <= |s| < pos + 64 && (|m| + pos) % 64 == 0
    ensures |m + s| % 64 == |s| - pos && (m + s)[..|m| + pos] == m + s[..pos] && (m + s)[|m| + pos..] == s[pos..]
  {
    assert |m + s| == 64 * ((|m| + pos) / 64) + (|s| - pos);
  }

  /** The last block is the end of the padded message. */
  lemma ShortPad(m: seq<Byte>)
    requires |m| % 64 <= 55
    ensures var w := |m| - |m| % 64;
      Pad(m) == m[..w] + (m[w..] + [0x80] + Zeros(55 - |m| % 64)) + WordBytes(8 * |m| % 0x1_0000_0000)
        + WordBytes(8 * |m| / 0x1_0000_0000 % 0x1_0000_0000)
  {
    hide Zeros, WordBytes;
    var w := |m| - |m| % 64;
    assert m[..w] + (m[w..] + [0x80] + Zeros(55 - |m| % 64)) == m + ([0x80] + Zeros(55 - |m| % 64));
  }

  /** The last two blocks are. */
  lemma LongPad(m: seq<Byte>)
    requires |m| % 64 > 55
    ensures Pad(m) == m + [0x80] + Zeros(63 - |m| % 64) + Zeros(56) + WordBytes(8 * |m| % 0x1_0000_0000)
      + WordBytes(8 * |m| / 0x1_0000_0000 % 0x1_0000_0000)
  {
    assert Zeros(119 - |m| % 64) == Zeros(63 - |m| % 64) + Zeros(56);
    hide Zeros, WordBytes;
    assert m + ([0x80] + Zeros(119 - |m| % 64)) == m + [0x80] + Zeros(63 - |m| % 64) + Zeros(56);
  }

  // ---- mg_md5 ----

  function Concat(ps: seq<seq<Byte>>): seq<Byte> {
    if ps == [] then [] else Concat(ps[..|ps| - 1]) + ps[|ps| - 1]
  }

  const DIGITS := "0123456789abcdef"

  function Hex(s: seq<Byte>): (h: string)
    ensures |h| == 2 * |s|
  {
    if s == [] then "" else Hex(s[..|s| - 1]) + [DIGITS[s[|s| - 1] / 16], DIGITS[s[|s| - 1] % 16]]
  }

  /** Different digests have different names. */
  lemma {:induction false} HexInjective(s: seq<Byte>, t: seq<Byte>)
    requires Hex(s) == Hex(t)
    ensures s == t
  {
    hide Hex;
    if s != [] {
      var n := |s| - 1;
      HexLast(s);
      HexLast(t);
      HexInjective(s[..n], t[..n]);
      DigitsDiffer(s[n] / 16, t[n] / 16);
      DigitsDiffer(s[n] % 16, t[n] % 16);
      SplitLast(s);
      SplitLast(t);
    }
  }

  lemma HexLast(s: seq<Byte>)
    requires s != []
    ensures var n, h := |s| - 1, Hex(s);
      h[..2 * n] == Hex(s[..n]) && h[2 * n] == DIGITS[s[n] / 16] && h[2 * n + 1] == DIGITS[s[n] % 16]
  {
    var n := |s| - 1;
    var front, x, y := Hex(s[..n]), DIGITS[s[n] / 16], DIGITS[s[n] % 16];
    assert Hex(s) == front + [x, y];
    hide Hex;
    TwoBehind(front, x, y);
  }

  lemma TwoBehind(front: string, x: char, y: char)
    ensures var h := front + [x, y]; h[..|front|] == front && h[|front|] == x && h[|front| + 1] == y
  {
  }

  lemma SplitLast(s: seq<Byte>)
    requires s != []
    ensures s == s[..|s| - 1] + [16 * (s[|s| - 1] / 16) + s[|s| - 1] % 16]
  {
  }

  lemma DigitsDiffer(i: int, j: int)
    requires 0 <= i < 16 && 0 <= j < 16 && DIGITS[i] == DIGITS[j]
    ensures i == j
  {
  }

  /** bin2str */
  method Bin2Str(p: seq<Byte>) returns (to: string)
    ensures to == Hex(p)
  {
    to := "";
    var i := 0;
    while i < |p|
      invariant i <= |p| && to == Hex(p[..i])
    {
      assert p[..i + 1][..i] == p[..i];
      to := to + [DIGITS[p[i] / 16]] + [DIGITS[p[i] % 16]];
      i := i + 1;
    }
    assert p[..i] == p;
  }

  lemma NothingYet(ps: seq<seq<Byte>>)
    ensures Concat(ps[..0]) == []
  {
  }

  lemma ConcatSnoc(ps: seq<seq<Byte>>, i: nat)
    requires i < |ps|
    ensures Concat(ps[..i + 1]) == Concat(ps[..i]) + ps[i]
  {
    assert ps[..i + 1][..i] == ps[..i];
  }

  /** The hash of a list of strings is that of their concatenation. */
  method MgMd5(ps: seq<seq<Byte>>) returns (buf: string)
    requires forall i :: 0 <= i < |ps| ==> |ps[i]| < 0x1_0000_0000
    ensures buf == Hex(Digest(Concat(ps)))
  {
    hide Chain, Digest, Md5Context.Valid, Concat, Hex;
    var ctx := new Md5Context();
    var i := 0;
    NothingYet(ps);
    while i < |ps|
      invariant i <= |ps| && ctx.Valid() && ctx.message == Concat(ps[..i])
      invariant fresh(ctx) && fresh(ctx.buf) && fresh(ctx.bits) && fresh(ctx.data)
    {
      ConcatSnoc(ps, i);
      ctx.Update(ps[i]);
      i := i + 1;
    }
    assert ps[..i] == ps;
    var hash := ctx.Final();
    buf := Bin2Str(hash);
  }

  lemma Carry(n: nat, len: Word32)
    ensures var t: Word32, c: Word32 := 8 * n % 0x1_0000_0000, 8 * n / 0x1_0000_0000 % 0x1_0000_0000;
      var t' := Add(t, len * 8 % 0x1_0000_0000);
      && 8 * (n + len) % 0x1_0000_0000 == t'
      && 8 * (n + len) / 0x1_0000_0000 % 0x1_0000_0000 == Add(if t' < t then Add(c, 1) else c, len / 0x2000_0000)
  {
    CarryOut(8 * n, 8 * len);
    var hi, lo := 8 * n / 0x1_0000_0000, len / 0x2000_0000;
    assert 8 * len / 0x1_0000_0000 == lo;
    var t, u := 8 * n % 0x1_0000_0000, 8 * len % 0x1_0000_0000;
    if t + u < 0x1_0000_0000 {
      ModAdd(hi, lo);
    } else {
      ModAdd(hi, 1);
      ModAdd(hi + 1, lo);
    }
  }

  lemma CarryOut(a: nat, b: nat)
    ensures var t, u := a % 0x1_0000_0000, b % 0x1_0000_0000;
      && (a + b) % 0x1_0000_0000 == (t + u) % 0x1_0000_0000
      && (a + b) / 0x1_0000_0000 == a / 0x1_0000_0000 + b / 0x1_0000_0000 + (if t + u < 0x1_0000_0000 then 0 else 1)
      && (t + u < 0x1_0000_0000 <==> (t + u) % 0x1_0000_0000 >= t)
  {
    var t, u, x, y := a % 0x1_0000_0000, b % 0x1_0000_0000, a / 0x1_0000_0000, b / 0x1_0000_0000;
    assert a + b == 0x1_0000_0000 * (x + y) + (t + u);
    if t + u >= 0x1_0000_0000 {
      assert a + b == 0x1_0000_0000 * (x + y + 1) + (t + u - 0x1_0000_0000);
    }
  }

  lemma ModAdd(a: nat, b: nat)
    ensures (a + b) % 0x1_0000_0000 == (a % 0x1_0000_0000 + b) % 0x1_0000_0000
  {
    assert a == 0x1_0000_0000 * (a / 0x1_0000_0000) + a % 0x1_0000_0000;
    var c := a % 0x1_0000_0000 + b;
    assert a + b == 0x1_0000_0000 * (a / 0x1_0000_0000 + c / 0x1_0000_0000) + c % 0x1_0000_0000;
  }
}
