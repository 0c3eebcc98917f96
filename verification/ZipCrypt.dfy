// The stream cipher of the ZIP format (APPNOTE.TXT section 6.1) and the header in front of encrypted data.
module ZipCipher {
  import opened Bytes
  import opened Bits

  // The CRC table. Nothing below depends on its entries.
  type CrcTable = t: seq<Word32> | |t| == 256 witness seq(256, _ => 0)

  datatype Keys = Keys(k0: Word32, k1: Word32, k2: Word32)

  /** The macro CRC32: one byte goes into a CRC. */
  function Crc32(tab: CrcTable, c: Word32, b: Byte): Word32 {
    XorWord(tab[XorByte(c % 0x100, b)], c / 0x100)
  }

  /** decrypt_byte: the next byte of the pseudo-random sequence. */
  function DecryptByte(k2: Word32): Byte {
    var low := k2 % 0x1_0000;
    var temp := if low / 2 % 2 == 1 then low else low + 2;
    var other := if temp % 2 == 0 then temp + 1 else temp - 1;
    temp * other / 0x100 % 0x100
  }

  /** update_keys: the next byte of plain text goes into the keys. */
  function Update(tab: CrcTable, k: Keys, c: Byte): Keys {
    var k0 := Crc32(tab, k.k0, c);
    var k1 := ((k.k1 + k0 % 0x100) % 0x1_0000_0000 * 134775813 + 1) % 0x1_0000_0000;
    Keys(k0, k1, Crc32(tab, k.k2, k1 / 0x100_0000))
  }

  function Updates(tab: CrcTable, k: Keys, plain: seq<Byte>): Keys {
    if plain == [] then k else Update(tab, Updates(tab, k, plain[..|plain| - 1]), plain[|plain| - 1])
  }

  /** init_keys */
  function InitialKeys(tab: CrcTable, password: seq<Byte>): Keys {
    Updates(tab, Keys(305419896, 591751049, 878082192), password)
  }

  /** zencode: the random byte of the keys before this byte, and this byte. */
  function Encoded(k: Keys, c: Byte): Byte { XorByte(DecryptByte(k.k2), c) }

  function Encrypted(tab: CrcTable, k: Keys, plain: seq<Byte>): (r: seq<Byte>)
    ensures |r| == |plain|
  {
    if plain == [] then []
    else Encrypted(tab, k, plain[..|plain| - 1]) + [Encoded(Updates(tab, k, plain[..|plain| - 1]), plain[|plain| - 1])]
  }

  datatype Decryption = Decryption(plain: seq<Byte>, keys: Keys)

  /** zdecode, byte by byte: the keys go on with what each byte decrypts to. */
  function Decrypted(tab: CrcTable, k: Keys, s: seq<Byte>): (d: Decryption)
    ensures |d.plain| == |s|
  {
    if s == [] then Decryption([], k)
    else
      var d := Decrypted(tab, k, s[..|s| - 1]);
      var c := XorByte(s[|s| - 1], DecryptByte(d.keys.k2));
      Decryption(d.plain + [c], Update(tab, d.keys, c))
  }

  /** Decrypting with the keys of the encryptor gives the message, with the same keys at the end; since this
      holds of every beginning of the message too, the two are in step after every byte. */
  lemma {:induction false} DecryptEncrypted(tab: CrcTable, k: Keys, plain: seq<Byte>)
    ensures Decrypted(tab, k, Encrypted(tab, k, plain)) == Decryption(plain, Updates(tab, k, plain))
  {
    if plain != [] {
      var n := |plain| - 1;
      var keys := Updates(tab, k, plain[..n]);
      DecryptEncrypted(tab, k, plain[..n]);
      hide DecryptByte, Update, XorByte;
      assert Encrypted(tab, k, plain)[..n] == Encrypted(tab, k, plain[..n]);
      XorTwice(plain[n], DecryptByte(keys.k2));
      assert plain[..n] + [plain[n]] == plain;
    }
  }

  lemma {:induction false} EncryptedPrefix(tab: CrcTable, k: Keys, plain: seq<Byte>, i: nat)
    requires i <= |plain|
    ensures Encrypted(tab, k, plain)[..i] == Encrypted(tab, k, plain[..i])
  {
    if i < |plain| {
      var n := |plain| - 1;
      EncryptedPrefix(tab, k, plain[..n], i);
      assert plain[..n][..i] == plain[..i];
    } else {
      assert plain[..i] == plain;
    }
  }

  /** After every byte the decryptor's keys are the encryptor's. */
  lemma KeysInStep(tab: CrcTable, k: Keys, plain: seq<Byte>, i: nat)
    requires i <= |plain|
    ensures Decrypted(tab, k, Encrypted(tab, k, plain)[..i]).keys == Updates(tab, k, plain[..i])
  {
    EncryptedPrefix(tab, k, plain, i);
    DecryptEncrypted(tab, k, plain[..i]);
  }

  lemma {:induction false} UpdatesAppend(tab: CrcTable, k: Keys, a: seq<Byte>, b: seq<Byte>)
    ensures Updates(tab, k, a + b) == Updates(tab, Updates(tab, k, a), b)
    ensures Encrypted(tab, k, a + b) == Encrypted(tab, k, a) + Encrypted(tab, Updates(tab, k, a), b)
  {
    hide Update, Encoded;
    if b == [] {
      assert a + b == a;
    } else {
      var n := |b| - 1;
      assert (a + b)[..|a + b| - 1] == a + b[..n];
      UpdatesAppend(tab, k, a, b[..n]);
    }
  }

  // ---- What becomes of the keys ----

  /** The table CRC of a string, begun with c. */
  function CrcOver(tab: CrcTable, c: Word32, s: seq<Byte>): Word32 {
    if s == [] then c else Crc32(tab, CrcOver(tab, c, s[..|s| - 1]), s[|s| - 1])
  }

  /** A step of the linear congruential generator, with a byte added. */
  function NextGenerated(n: Word32, b: Byte): Word32 { ((n + b) * 134775813 + 1) % 0x1_0000_0000 }

  /** Key 1 is that generator, into which the low bytes of key 0 go. */
  function Generated(tab: CrcTable, k: Keys, s: seq<Byte>): Word32 {
    if s == [] then k.k1
    else NextGenerated(Generated(tab, k, s[..|s| - 1]), CrcOver(tab, k.k0, s) % 0x100)
  }

  /** The top bytes of key 1, one for each byte of the string. */
  function TopBytes(tab: CrcTable, k: Keys, s: seq<Byte>): (r: seq<Byte>)
    ensures |r| == |s|
  {
    if s == [] then [] else TopBytes(tab, k, s[..|s| - 1]) + [Generated(tab, k, s) / 0x100_0000]
  }

  /** The keys after a string: the CRC of the string, the generator, and the CRC of the generator's top bytes. */
  lemma {:induction false} KeysAfter(tab: CrcTable, k: Keys, s: seq<Byte>)
    ensures Updates(tab, k, s) == Keys(CrcOver(tab, k.k0, s), Generated(tab, k, s),
      CrcOver(tab, k.k2, TopBytes(tab, k, s)))
  {
    hide Crc32, Update, NextGenerated;
    if s != [] {
      var front := s[..|s| - 1];
      KeysAfter(tab, k, front);
      var tops := TopBytes(tab, k, s);
      assert tops[..|tops| - 1] == TopBytes(tab, k, front);
      OneUpdate(tab, Updates(tab, k, front), s[|s| - 1]);
    }
  }

  lemma OneUpdate(tab: CrcTable, k: Keys, c: Byte)
    ensures var k0 := Crc32(tab, k.k0, c);
      var k1 := NextGenerated(k.k1, k0 % 0x100);
      Update(tab, k, c) == Keys(k0, k1, Crc32(tab, k.k2, k1 / 0x100_0000))
  {
    hide Crc32;
    MultiplyMod(k.k1 + Crc32(tab, k.k0, c) % 0x100);
  }

  lemma MultiplyMod(n: nat)
    ensures (n % 0x1_0000_0000 * 134775813 + 1) % 0x1_0000_0000 == (n * 134775813 + 1) % 0x1_0000_0000
  {
    var q, r := n / 0x1_0000_0000, n % 0x1_0000_0000;
    assert n * 134775813 + 1 == (r * 134775813 + 1) + 0x1_0000_0000 * (q * 134775813);
    AddMultiple(r * 134775813 + 1, q * 134775813);
  }

  lemma AddMultiple(a: nat, k: nat)
    ensures (a + 0x1_0000_0000 * k) % 0x1_0000_0000 == a % 0x1_0000_0000
  {
  }

  /** With a table whose entries differ, as those of the CRC do, different bytes leave different keys. */
  lemma DifferentKeys(tab: CrcTable, k: Keys, s: seq<Byte>, a: Byte, b: Byte)
    requires a != b && forall i, j :: 0 <= i < j < 256 ==> tab[i] != tab[j]
    ensures Updates(tab, k, s + [a]).k0 != Updates(tab, k, s + [b]).k0
  {
    var c := CrcOver(tab, k.k0, s);
    KeysAfter(tab, k, s + [a]);
    KeysAfter(tab, k, s + [b]);
    assert (s + [a])[..|s|] == s && (s + [b])[..|s|] == s;
    XorKeepsApart(a, b, c % 0x100);
    XorWordKeepsApart(tab[XorByte(c % 0x100, a)], tab[XorByte(c % 0x100, b)], c / 0x100);
    hide XorByte, XorWord;
  }

  /** The keystream byte of the keys that every password starts from. */
  lemma EmptyPassword(tab: CrcTable)
    ensures DecryptByte(InitialKeys(tab, []).k2) == 0xAB
  {
    assert InitialKeys(tab, []).k2 == 878082192;
    assert 878082192 % 0x1_0000 == 30864;
  }

  /** The keystream byte depends on the low half of key 2 only. */
  lemma OnlyLowHalf(k2: Word32)
    ensures DecryptByte(k2) == DecryptByte(k2 % 0x1_0000)
  {
    assert k2 % 0x1_0000 % 0x1_0000 == k2 % 0x1_0000;
  }

  /** It, for each kind of low bits. */
  lemma KnownKeystream()
    ensures DecryptByte(0x1234) == 0xb5
    ensures DecryptByte(0x4321) == 0x13
    ensures DecryptByte(0xfffe) == 0x00
    ensures DecryptByte(0x9abf) == 0xbf
  {
    KeystreamByte(0x1234, 0x1236, 0x1237, 0xb5);
    KeystreamByte(0x4321, 0x4323, 0x4322, 0x13);
    KeystreamByte(0xfffe, 0xfffe, 0xffff, 0x00);
    KeystreamByte(0x9abf, 0x9abf, 0x9abe, 0xbf);
    hide DecryptByte;
  }

  lemma KeystreamByte(low: Word32, temp: nat, other: nat, r: Byte)
    requires low < 0x1_0000 && temp == (if low / 2 % 2 == 1 then low else low + 2)
    requires other == (if temp % 2 == 0 then temp + 1 else temp - 1) && temp * other / 0x100 % 0x100 == r
    ensures DecryptByte(low) == r
  {
  }

  // ---- The CRC as a polynomial ----

  /** One bit of the CRC with the polynomial EDB88320. */
  function PolyStep(x: Word32): Word32 { XorWord(x / 2, if x % 2 == 1 then 0xEDB8_8320 else 0) }

  function PolySteps(x: Word32, n: nat): Word32
    decreases n
  {
    if n == 0 then x else PolySteps(PolyStep(x), n - 1)
  }

  /** The table of that CRC. */
  predicate TableOfPoly(tab: CrcTable) { forall i: nat :: i < 0x100 ==> tab[i] == PolySteps(i, 8) }

  /** What is k bits up passes k steps unchanged. */
  lemma {:induction false} UpperBitsPass(x: Word32, h: nat, k: nat)
    requires h * PowerOf2(k) < 0x1_0000_0000
    ensures h < 0x1_0000_0000 && PolySteps(XorWord(x, h * PowerOf2(k)), k) == XorWord(PolySteps(x, k), h)
    decreases k
  {
    hide XorWord;
    if k > 0 {
      var up := h * PowerOf2(k - 1);
      assert h * PowerOf2(k) == 2 * up;
      XorHalves(x, up);
      var mask: Word32 := if x % 2 == 1 then 0xEDB8_8320 else 0;
      XorExchange(x / 2, up, mask);
      UpperBitsPass(PolyStep(x), h, k - 1);
    }
  }

  /** With the table of the polynomial, the macro takes the eight bits of a byte in at once. */
  lemma TableIsPoly(tab: CrcTable, c: Word32, b: Byte)
    requires TableOfPoly(tab)
    ensures Crc32(tab, c, b) == PolySteps(XorWord(c, b), 8)
  {
    PowersOf2();
    var h, low := c / 0x100, XorByte(c % 0x100, b);
    UpperBitsPass(low, h, 8);
    XorAroundByte(c, b);
    hide XorWord, XorByte, PolySteps;
    assert h * PowerOf2(8) == 0x100 * h;
  }

  /** The two bytes of the CRC that end the header. */
  function CrcBytes(crc: Word32): seq<Byte> { [crc / 0x1_0000 % 0x100, crc / 0x100_0000] }

  /** What a reader that knows the password gets: the header, whose last bytes are those of the CRC, and then
      the data behind it. */
  lemma ReaderGetsHeaderAndBody(tab: CrcTable, password: seq<Byte>, header: seq<Byte>, crc: Word32, body: seq<Byte>)
    requires |header| == 10
    ensures var k := InitialKeys(tab, password);
      var head := Encrypted(tab, k, header + CrcBytes(crc));
      var ready := Updates(tab, k, header + CrcBytes(crc));
      && Decrypted(tab, k, head) == Decryption(header + CrcBytes(crc), ready)
      && Decrypted(tab, k, head + Encrypted(tab, ready, body)).plain == header + CrcBytes(crc) + body
  {
    var k := InitialKeys(tab, password);
    DecryptEncrypted(tab, k, header + CrcBytes(crc));
    UpdatesAppend(tab, k, header + CrcBytes(crc), body);
    DecryptEncrypted(tab, k, header + CrcBytes(crc) + body);
  }
}

// The functions of crypt.h, which change an array of three keys.
module ZipCrypt {
  import opened Bytes
  import opened Bits
  import opened ZipCipher

  const RAND_HEAD_LEN: nat := 12

  function KeysOf(pkeys: array<Word32>): Keys
    reads pkeys
    requires pkeys.Length == 3
  {
    Keys(pkeys[0], pkeys[1], pkeys[2])
  }

  method UpdateKeys(pkeys: array<Word32>, tab: CrcTable, c: Byte)
    requires pkeys.Length == 3
    modifies pkeys
    ensures KeysOf(pkeys) == Update(tab, old(KeysOf(pkeys)), c)
  {
    hide Crc32;
    pkeys[0] := Crc32(tab, pkeys[0], c);
    var k0: int, k1: int := pkeys[0], pkeys[1];
    pkeys[1] := (k1 + k0 % 0x100) % 0x1_0000_0000;
    k1 := pkeys[1];
    pkeys[1] := (k1 * 134775813 + 1) % 0x1_0000_0000;
    pkeys[2] := Crc32(tab, pkeys[2], pkeys[1] / 0x100_0000);
  }

  method InitKeys(password: seq<Byte>, pkeys: array<Word32>, tab: CrcTable)
    requires pkeys.Length == 3
    modifies pkeys
    ensures KeysOf(pkeys) == InitialKeys(tab, password)
  {
    hide Update;
    pkeys[0], pkeys[1], pkeys[2] := 305419896, 591751049, 878082192;
    ghost var k := KeysOf(pkeys);
    var i := 0;
    while i < |password|
      invariant i <= |password| && KeysOf(pkeys) == Updates(tab, k, password[..i])
    {
      assert password[..i + 1][..i] == password[..i];
      UpdateKeys(pkeys, tab, password[i]);
      i := i + 1;
    }
    assert password[..i] == password;
  }

  method ZEncode(pkeys: array<Word32>, tab: CrcTable, c: Byte) returns (r: Byte)
    requires pkeys.Length == 3
    modifies pkeys
    ensures r == Encoded(old(KeysOf(pkeys)), c) && KeysOf(pkeys) == Update(tab, old(KeysOf(pkeys)), c)
  {
    hide Update, XorByte, DecryptByte;
    var t := DecryptByte(pkeys[2]);
    UpdateKeys(pkeys, tab, c);
    r := XorByte(t, c);
  }

  method ZDecode(pkeys: array<Word32>, tab: CrcTable, s: Byte) returns (c: Byte)
    requires pkeys.Length == 3
    modifies pkeys
    ensures c == XorByte(s, DecryptByte(old(pkeys[2]))) && KeysOf(pkeys) == Update(tab, old(KeysOf(pkeys)), c)
  {
    hide Update, XorByte, DecryptByte;
    c := XorByte(s, DecryptByte(pkeys[2]));
    UpdateKeys(pkeys, tab, c);
  }

  /** Encrypts into an array. */
  method EncryptInto(pkeys: array<Word32>, tab: CrcTable, plain: seq<Byte>, buf: array<Byte>, at: nat)
    requires pkeys.Length == 3 && at + |plain| <= buf.Length
    modifies pkeys, buf
    ensures KeysOf(pkeys) == Updates(tab, old(KeysOf(pkeys)), plain)
    ensures buf[..] == old(buf[..at]) + Encrypted(tab, old(KeysOf(pkeys)), plain) + old(buf[at + |plain|..])
  {
    hide Update, Encoded;
    ghost var k, was := KeysOf(pkeys), buf[..];
    var n := 0;
    while n < |plain|
      invariant n <= |plain| && KeysOf(pkeys) == Updates(tab, k, plain[..n])
      invariant buf[..] == was[..at] + Encrypted(tab, k, plain[..n]) + was[at + n..]
    {
      assert plain[..n + 1][..n] == plain[..n];
      var c := ZEncode(pkeys, tab, plain[n]);
      buf[at + n] := c;
      n := n + 1;
    }
    assert plain[..n] == plain;
  }

  /** What unzReadCurrentFile does with the bytes it has read: what was encrypted with the same keys comes back. */
  method DecryptBuffer(pkeys: array<Word32>, tab: CrcTable, buf: array<Byte>, n: nat)
    requires pkeys.Length == 3 && n <= buf.Length
    modifies pkeys, buf
    ensures Decryption(buf[..n], KeysOf(pkeys)) == Decrypted(tab, old(KeysOf(pkeys)), old(buf[..n]))
    ensures buf[n..] == old(buf[n..])
    ensures forall plain :: old(buf[..n]) == Encrypted(tab, old(KeysOf(pkeys)), plain) ==>
      buf[..n] == plain && KeysOf(pkeys) == Updates(tab, old(KeysOf(pkeys)), plain)
  {
    hide Update, DecryptByte, XorByte;
    ghost var k, was := KeysOf(pkeys), buf[..];
    var i := 0;
    while i < n
      invariant i <= n && Decryption(buf[..i], KeysOf(pkeys)) == Decrypted(tab, k, was[..i]) && buf[i..] == was[i..]
    {
      DecryptedSnoc(tab, k, was, i);
      assert buf[i] == buf[i..][0] == was[i];
      ghost var before := buf[..i];
      var c := ZDecode(pkeys, tab, buf[i]);
      assert buf[i..][1..] == was[i..][1..];
      buf[i] := c;
      assert buf[..i + 1] == before + [c];
      i := i + 1;
    }
    forall plain | was[..n] == Encrypted(tab, k, plain)
      ensures Decrypted(tab, k, was[..n]) == Decryption(plain, Updates(tab, k, plain))
    {
      DecryptEncrypted(tab, k, plain);
    }
  }

  lemma DecryptedSnoc(tab: CrcTable, k: Keys, s: seq<Byte>, i: nat)
    requires i < |s|
    ensures var d := Decrypted(tab, k, s[..i]);
      var c := XorByte(s[i], DecryptByte(d.keys.k2));
      Decrypted(tab, k, s[..i + 1]) == Decryption(d.plain + [c], Update(tab, d.keys, c))
  {
    hide Update, DecryptByte, XorByte;
    assert s[..i + 1][..i] == s[..i];
  }

  /** What unzOpenCurrentFile3 does with the password and the twelve bytes in front of the data: behind a header
      that crypthead wrote with the same password, the keys are the ones the data was encrypted with. */
  method ReadHead(password: seq<Byte>, source: array<Byte>, pkeys: array<Word32>, tab: CrcTable)
    requires pkeys.Length == 3 && source.Length == RAND_HEAD_LEN
    modifies pkeys
    ensures KeysOf(pkeys) == Decrypted(tab, InitialKeys(tab, password), source[..]).keys
    ensures forall head :: source[..] == Encrypted(tab, InitialKeys(tab, password), head) ==>
      KeysOf(pkeys) == Updates(tab, InitialKeys(tab, password), head)
  {
    hide Update, DecryptByte, XorByte, InitialKeys;
    InitKeys(password, pkeys, tab);
    ghost var k := KeysOf(pkeys);
    var i := 0;
    while i < RAND_HEAD_LEN
      invariant i <= RAND_HEAD_LEN && KeysOf(pkeys) == Decrypted(tab, k, source[..i]).keys
    {
      DecryptedSnoc(tab, k, source[..], i);
      assert source[..][..i] == source[..i] && source[..][..i + 1] == source[..i + 1];
      var _ := ZDecode(pkeys, tab, source[i]);
      i := i + 1;
    }
    assert source[..i] == source[..];
    forall head | source[..] == Encrypted(tab, k, head)
      ensures Decrypted(tab, k, source[..]).keys == Updates(tab, k, head) {
      DecryptEncrypted(tab, k, head);
    }
  }

  /** crypthead: ten random bytes, encrypted twice, and two bytes of the CRC. The keys are left ready for the data. */
  method CryptHead(password: seq<Byte>, buf: array<Byte>, bufSize: nat, pkeys: array<Word32>, tab: CrcTable,
                   crc: Word32, rand: seq<Byte>) returns (n: nat)
    requires pkeys.Length == 3 && bufSize <= buf.Length && |rand| == RAND_HEAD_LEN - 2
    modifies pkeys, buf
    ensures n == (if bufSize < RAND_HEAD_LEN then 0 else RAND_HEAD_LEN)
    ensures bufSize < RAND_HEAD_LEN ==> buf[..] == old(buf[..])
    ensures n > 0 ==>
      var k := InitialKeys(tab, password);
      var header := Encrypted(tab, k, rand);
      && buf[..12] == Encrypted(tab, k, header + CrcBytes(crc))
      && KeysOf(pkeys) == Updates(tab, k, header + CrcBytes(crc))
      && Decrypted(tab, k, buf[..12]) == Decryption(header + CrcBytes(crc), KeysOf(pkeys))
  {
    hide InitialKeys, Updates, Encrypted, Decrypted, Update, Encoded;
    n := 0;
    if bufSize < RAND_HEAD_LEN {
      return;
    }
    ghost var k := InitialKeys(tab, password);
    var header := new Byte[RAND_HEAD_LEN - 2];
    InitKeys(password, pkeys, tab);
    EncryptInto(pkeys, tab, rand, header, 0);
    assert header[..] == Encrypted(tab, k, rand);
    InitKeys(password, pkeys, tab);
    EncryptInto(pkeys, tab, header[..], buf, 0);
    EncryptInto(pkeys, tab, CrcBytes(crc), buf, RAND_HEAD_LEN - 2);
    UpdatesAppend(tab, k, header[..], CrcBytes(crc));
    DecryptEncrypted(tab, k, header[..] + CrcBytes(crc));
    assert buf[..12] == Encrypted(tab, k, header[..] + CrcBytes(crc));
    n := RAND_HEAD_LEN;
  }
}
