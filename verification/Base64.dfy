// Base64 (RFC 4648 section 4), encoding and decoding.
module Base64 {
  import opened Bytes

  const PAD: Byte := '=' as int

  // What std::string::find gives for a missing character, cut down to one byte.
  const NPOS: Byte := 255

  /** Table 1 of the standard. */
  function Letter(i: nat): Byte
    requires i < 64
  {
    if i < 26 then 'A' as int + i else if i < 52 then 'a' as int + i - 26 else if i < 62 then '0' as int + i - 52
    else if i == 62 then '+' as int else '/' as int
  }

  predicate IsBase64(c: Byte) {
    'A' as int <= c <= 'Z' as int || 'a' as int <= c <= 'z' as int || '0' as int <= c <= '9' as int || c == '+' as int
      || c == '/' as int
  }

  function Find(c: Byte): Byte {
    if 'A' as int <= c <= 'Z' as int then c - 'A' as int else if 'a' as int <= c <= 'z' as int then c - 'a' as int + 26
    else if '0' as int <= c <= '9' as int then c - '0' as int + 52 else if c == '+' as int then 62
      else if c == '/' as int then 63
    else NPOS
  }

  const UPPER := "ABCDEFGHIJKLMNOPQRSTUVWXYZ"
  const LOWER := "abcdefghijklmnopqrstuvwxyz"
  const ALPHABET := UPPER + LOWER + "0123456789" + "+/"

  /** The letters are those of the program's string, in its order, and a letter is found at its place. */
  lemma LettersOfAlphabet(i: nat)
    requires i < 64
    ensures |ALPHABET| == 64 && Letter(i) == ALPHABET[i] as int && Find(ALPHABET[i] as int) == i
  {
    if i < 26 {
      assert ALPHABET[i] == UPPER[i];
    } else if i < 52 {
      assert ALPHABET[i] == LOWER[i - 26];
    } else if i < 62 {
      assert ALPHABET[i] == "0123456789"[i - 52];
    }
  }

  /** Values of section 10 of the standard. */
  lemma PublishedValues()
    ensures Encode([0x66]) == [0x5A, 0x67, 0x3D, 0x3D]
    ensures Encode([0x66, 0x6F]) == [0x5A, 0x6D, 0x38, 0x3D]
    ensures Encode([0x66, 0x6F, 0x6F]) == [0x5A, 0x6D, 0x39, 0x76]
  {
    assert [0x66, 0x6F, 0x6F][3..] == [];
  }

  lemma FindLetter(i: nat)
    requires i < 64
    ensures IsBase64(Letter(i)) && Find(Letter(i)) == i && Letter(i) != PAD
  {
  }

  lemma LetterFind(c: Byte)
    ensures IsBase64(c) ==> Find(c) < 64 && Letter(Find(c)) == c && c != PAD
  {
  }

  /** Three bytes as four letters. */
  function Quad(a: Byte, b: Byte, c: Byte): (q: seq<Byte>)
    ensures |q| == 4
  {
    [Letter(a / 4), Letter(a % 4 * 16 + b / 16), Letter(b % 16 * 4 + c / 64), Letter(c % 64)]
  }

  function Encode(s: seq<Byte>): (r: seq<Byte>) {
    if s == [] then []
    else if |s| == 1 then Quad(s[0], 0, 0)[..2] + [PAD, PAD]
    else if |s| == 2 then Quad(s[0], s[1], 0)[..3] + [PAD]
    else Quad(s[0], s[1], s[2]) + Encode(s[3..])
  }

  /** Four values as three bytes; each sum is cut down to one byte. */
  function Triple(a: Byte, b: Byte, c: Byte, d: Byte): (t: seq<Byte>)
    ensures |t| == 3
  {
    [(a * 4 + b / 16 % 4) % 0x100, (b % 16 * 16 + c / 4 % 16) % 0x100, (c % 4 * 64 + d) % 0x100]
  }

  /** The letters up to the first other character. */
  function Letters(s: seq<Byte>): (r: seq<Byte>)
    ensures |r| <= |s| && forall i :: 0 <= i < |r| ==> r[i] == s[i] && IsBase64(r[i])
  {
    if s == [] || s[0] == PAD || !IsBase64(s[0]) then [] else [s[0]] + Letters(s[1..])
  }

  function DecodeLetters(t: seq<Byte>): seq<Byte> {
    if |t| <= 1 then []
    else if |t| == 2 then Triple(Find(t[0]), Find(t[1]), Find(0), Find(0))[..1]
    else if |t| == 3 then Triple(Find(t[0]), Find(t[1]), Find(t[2]), Find(0))[..2]
    else Triple(Find(t[0]), Find(t[1]), Find(t[2]), Find(t[3])) + DecodeLetters(t[4..])
  }

  function Decode(s: seq<Byte>): seq<Byte> { DecodeLetters(Letters(s)) }

  // ---- Round trips ----

  lemma {:induction false} EncodedLength(s: seq<Byte>)
    ensures |Encode(s)| == 4 * ((|s| + 2) / 3)
  {
    if |s| >= 3 {
      EncodedLength(s[3..]);
    }
  }

  lemma FirstByte(a: Byte, b: Byte)
    ensures (a / 4 * 4 + (a % 4 * 16 + b / 16) / 16 % 4) % 0x100 == a
  {
    assert (a % 4 * 16 + b / 16) / 16 == a % 4;
  }

  lemma SecondByte(high: nat, b: Byte, c: Byte)
    requires high < 4
    ensures ((high * 16 + b / 16) % 16 * 16 + (b % 16 * 4 + c / 64) / 4 % 16) % 0x100 == b
  {
    assert (high * 16 + b / 16) % 16 == b / 16;
    assert (b % 16 * 4 + c / 64) / 4 == b % 16;
  }

  lemma ThirdByte(high: nat, c: Byte)
    requires high < 16
    ensures ((high * 4 + c / 64) % 4 * 64 + c % 64) % 0x100 == c
  {
    assert (high * 4 + c / 64) % 4 == c / 64;
  }

  lemma TripleOfQuad(a: Byte, b: Byte, c: Byte, d: Byte)
    ensures var q := Quad(a, b, c);
      && Triple(Find(q[0]), Find(q[1]), Find(q[2]), Find(q[3])) == [a, b, c]
      && Triple(Find(q[0]), Find(q[1]), d, d)[..1] == [a]
      && Triple(Find(q[0]), Find(q[1]), Find(q[2]), d)[..2] == [a, b]
  {
    FindLetter(a / 4);
    FindLetter(a % 4 * 16 + b / 16);
    FindLetter(b % 16 * 4 + c / 64);
    FindLetter(c % 64);
    TripleValues(a, b, c, d);
    hide Find, Letter, Triple;
  }

  lemma TripleValues(a: Byte, b: Byte, c: Byte, d: Byte)
    ensures var w, x := a % 4 * 16 + b / 16, b % 16 * 4 + c / 64;
      && Triple(a / 4, w, x, c % 64) == [a, b, c] && Triple(a / 4, w, d, d)[..1] == [a]
      && Triple(a / 4, w, x, d)[..2] == [a, b]
  {
    FirstByte(a, b);
    SecondByte(a % 4, b, c);
    ThirdByte(b % 16, c);
  }

  lemma LettersThenPad(t: seq<Byte>, pad: seq<Byte>)
    requires (forall i :: 0 <= i < |t| ==> IsBase64(t[i])) && (pad == [] || pad[0] == PAD)
    ensures Letters(t + pad) == t
  {
    if t == [] {
      assert t + pad == pad;
    } else {
      LetterFind(t[0]);
      assert (t + pad)[1..] == t[1..] + pad;
      LettersThenPad(t[1..], pad);
    }
  }

  lemma QuadLetters(a: Byte, b: Byte, c: Byte)
    ensures forall i :: 0 <= i < 4 ==> IsBase64(Quad(a, b, c)[i])
  {
    FindLetter(a / 4);
    FindLetter(a % 4 * 16 + b / 16);
    FindLetter(b % 16 * 4 + c / 64);
    FindLetter(c % 64);
  }

  /** The letters of an encoded string, without its padding. */
  function Unpadded(s: seq<Byte>): seq<Byte> {
    if s == [] then []
    else if |s| == 1 then Quad(s[0], 0, 0)[..2]
    else if |s| == 2 then Quad(s[0], s[1], 0)[..3]
    else Quad(s[0], s[1], s[2]) + Unpadded(s[3..])
  }

  lemma {:induction false} EncodedIsPadded(s: seq<Byte>) returns (pad: seq<Byte>)
    ensures Encode(s) == Unpadded(s) + pad && (pad == [] || pad[0] == PAD)
    ensures forall i :: 0 <= i < |Unpadded(s)| ==> IsBase64(Unpadded(s)[i])
  {
    hide Quad, IsBase64;
    if s == [] {
      pad := [];
    } else if |s| == 1 {
      QuadLetters(s[0], 0, 0);
      pad := [PAD, PAD];
    } else if |s| == 2 {
      QuadLetters(s[0], s[1], 0);
      pad := [PAD];
    } else {
      QuadLetters(s[0], s[1], s[2]);
      pad := EncodedIsPadded(s[3..]);
      assert Quad(s[0], s[1], s[2]) + (Unpadded(s[3..]) + pad) == Unpadded(s) + pad;
    }
  }

  lemma {:induction false} DecodeUnpadded(s: seq<Byte>)
    ensures DecodeLetters(Unpadded(s)) == s
  {
    hide Triple, Quad, Find;
    if |s| == 1 {
      TripleOfQuad(s[0], 0, 0, Find(0));
    } else if |s| == 2 {
      TripleOfQuad(s[0], s[1], 0, Find(0));
    } else if |s| >= 3 {
      TripleOfQuad(s[0], s[1], s[2], Find(0));
      DecodeUnpadded(s[3..]);
      assert Unpadded(s)[4..] == Unpadded(s[3..]);
      assert s == [s[0], s[1], s[2]] + s[3..];
    }
  }

  /** Decoding undoes encoding, for every string of bytes, whatever the unused slots of the last group hold. */
  lemma DecodeEncode(s: seq<Byte>)
    ensures Decode(Encode(s)) == s
  {
    var pad := EncodedIsPadded(s);
    LettersThenPad(Unpadded(s), pad);
    DecodeUnpadded(s);
  }

  lemma FirstLetter(v: nat, w: nat)
    requires v < 64 && w < 64
    ensures var r := (v * 4 + w / 16 % 4) % 0x100; r / 4 == v && r % 4 == w / 16
  {
  }

  lemma SecondLetter(v: nat, w: nat, x: nat)
    requires v < 64 && w < 64 && x < 64
    ensures var r, s := (v * 4 + w / 16 % 4) % 0x100, (w % 16 * 16 + x / 4 % 16) % 0x100;
      r % 4 * 16 + s / 16 == w && s % 16 == x / 4
  {
    FirstLetter(v, w);
  }

  lemma ThirdLetter(s: nat, x: nat, y: nat)
    requires x < 64 && y < 64 && s == x / 4
    ensures var t := (x % 4 * 64 + y) % 0x100; s * 4 + t / 64 == x && t % 64 == y
  {
  }

  lemma QuadOfTriple(t: seq<Byte>)
    requires |t| == 4 && forall i :: 0 <= i < 4 ==> IsBase64(t[i])
    ensures var r := Triple(Find(t[0]), Find(t[1]), Find(t[2]), Find(t[3]));
      Quad(r[0], r[1], r[2]) == t
  {
    LetterFind(t[0]);
    LetterFind(t[1]);
    LetterFind(t[2]);
    LetterFind(t[3]);
    hide Find, IsBase64;
    QuadValues(Find(t[0]), Find(t[1]), Find(t[2]), Find(t[3]));
    hide Letter, Quad, Triple;
    assert t == [t[0], t[1], t[2], t[3]];
  }

  lemma QuadValues(v: Byte, w: Byte, x: Byte, y: Byte)
    requires v < 64 && w < 64 && x < 64 && y < 64
    ensures var r := Triple(v, w, x, y);
      Quad(r[0], r[1], r[2]) == [Letter(v), Letter(w), Letter(x), Letter(y)]
  {
    hide Letter;
    FirstLetter(v, w);
    SecondLetter(v, w, x);
    ThirdLetter(x / 4, x, y);
  }

  /** And encoding undoes decoding of letters in groups of four. */
  lemma {:induction false} EncodeDecode(t: seq<Byte>)
    requires |t| % 4 == 0 && forall i :: 0 <= i < |t| ==> IsBase64(t[i])
    ensures Encode(Decode(t)) == t
  {
    LettersThenPad(t, []);
    assert t + [] == t;
    EncodeDecodeLetters(t);
  }

  lemma {:induction false} EncodeDecodeLetters(t: seq<Byte>)
    requires |t| % 4 == 0 && forall i :: 0 <= i < |t| ==> IsBase64(t[i])
    ensures Encode(DecodeLetters(t)) == t
  {
    hide Triple, Quad, Find, IsBase64;
    if t != [] {
      QuadOfTriple(t[..4]);
      EncodeDecodeLetters(t[4..]);
      var r := DecodeLetters(t);
      assert r[3..] == DecodeLetters(t[4..]);
      assert t == t[..4] + t[4..];
    }
  }

  // ---- The methods ----

  lemma {:induction false} EncodeAppend(s: seq<Byte>, t: seq<Byte>)
    requires |s| % 3 == 0
    ensures Encode(s + t) == Encode(s) + Encode(t)
  {
    if s == [] {
      assert s + t == t;
    } else {
      assert (s + t)[3..] == s[3..] + t;
      EncodeAppend(s[3..], t);
    }
  }

  predicate WholeGroups(n: int, size: nat) { 0 <= n && 0 < size && n % size == 0 }

  lemma NoGroup(size: nat)
    requires 0 < size
    ensures WholeGroups(0, size)
  {
  }

  lemma EncodeGroup(bytes: seq<Byte>, p: nat, three: seq<Byte>)
    requires 3 <= p <= |bytes| && WholeGroups(p - 3, 3) && |three| == 3
      && forall k :: 0 <= k < 3 ==> three[k] == bytes[p - 3 + k]
    ensures Encode(bytes[..p]) == Encode(bytes[..p - 3]) + Quad(three[0], three[1], three[2]) && WholeGroups(p, 3)
  {
    hide Encode, Quad;
    EncodeAppend(bytes[..p - 3], three);
    Joined(bytes, p - 3, three);
    OneQuad(three);
  }

  lemma EncodeEnd(bytes: seq<Byte>, i: nat, rest: seq<Byte>)
    requires i <= |bytes| && WholeGroups(|bytes| - i, 3) && |rest| == i
      && forall k :: 0 <= k < i ==> rest[k] == bytes[|bytes| - i + k]
    ensures Encode(bytes) == Encode(bytes[..|bytes| - i]) + Encode(rest) && (i == 0 ==> Encode(rest) == [])
  {
    hide Encode;
    var n := |bytes| - i;
    EncodeAppend(bytes[..n], rest);
    Joined(bytes, n, rest);
    NothingEncoded();
  }

  lemma Joined(s: seq<Byte>, n: nat, rest: seq<Byte>)
    requires n + |rest| <= |s| && forall k :: 0 <= k < |rest| ==> rest[k] == s[n + k]
    ensures s[..n] + rest == s[..n + |rest|] && s[..|s|] == s
  {
  }

  /** base64_encode */
  method Base64Encode(bytes: seq<Byte>) returns (ret: seq<Byte>)
    ensures ret == Encode(bytes)
  {
    hide Encode, Quad, WholeGroups;
    ret := [];
    NoGroup(3);
    var three := new Byte[3];
    var i, p := 0, 0;
    NothingEncoded();
    while p < |bytes|
      invariant 0 <= i < 3 && i <= p <= |bytes| && WholeGroups(p - i, 3)
        && forall k :: 0 <= k < i ==> three[k] == bytes[p - i + k]
      invariant ret == Encode(bytes[..p - i])
    {
      three[i] := bytes[p];
      i, p := i + 1, p + 1;
      if i == 3 {
        EncodeGroup(bytes, p, three[..]);
        ret := ret + Quad(three[0], three[1], three[2]);
        i := 0;
      }
    }
    EncodeEnd(bytes, i, three[..i]);
    if i != 0 {
      var last := EncodeRest(three, i);
      ret := ret + last;
    }
  }

  lemma NothingEncoded()
    ensures Encode([]) == []
  {
  }

  lemma OneQuad(s: seq<Byte>)
    requires |s| == 3
    ensures Encode(s) == Quad(s[0], s[1], s[2])
  {
    assert Encode(s) == Quad(s[0], s[1], s[2]) + Encode(s[3..]);
  }

  /** The last one or two bytes, with zeros behind them. */
  method EncodeRest(three: array<Byte>, i: nat) returns (ret: seq<Byte>)
    requires three.Length == 3 && 1 <= i <= 2
    modifies three
    ensures ret == Encode(old(three[..i]))
  {
    var j := i;
    while j < 3
      invariant i <= j <= 3 && forall k :: 0 <= k < 3 ==> three[k] == if i <= k < j then 0 else old(three[k])
    {
      three[j] := 0;
      j := j + 1;
    }
    var four := Quad(three[0], three[1], three[2]);
    ret := four[..i + 1];
    var k := i;
    while k < 3
      invariant i <= k <= 3 && ret == four[..i + 1] + seq(k - i, _ => PAD)
    {
      ret := ret + [PAD];
      k := k + 1;
    }
  }

  lemma {:induction false} DecodeAppend(s: seq<Byte>, t: seq<Byte>)
    requires |s| % 4 == 0
    ensures DecodeLetters(s + t) == DecodeLetters(s) + DecodeLetters(t)
  {
    hide Triple, Find;
    if s == [] {
      assert s + t == t;
    } else {
      assert (s + t)[4..] == s[4..] + t;
      DecodeAppend(s[4..], t);
    }
  }

  lemma {:induction false} LettersEnd(s: seq<Byte>, n: nat)
    requires n <= |s| && (forall i :: 0 <= i < n ==> IsBase64(s[i])) && (n == |s| || s[n] == PAD || !IsBase64(s[n]))
    ensures Letters(s) == s[..n]
  {
    assert s == s[..n] + s[n..];
    if n > 0 {
      LetterFind(s[0]);
      LettersEnd(s[1..], n - 1);
    }
  }

  lemma DecodeGroup(s: seq<Byte>, p: nat, four: seq<Byte>)
    requires 4 <= p <= |s| && WholeGroups(p - 4, 4) && |four| == 4 && forall k :: 0 <= k < 4 ==> four[k] == s[p - 4 + k]
    ensures DecodeLetters(s[..p]) == DecodeLetters(s[..p - 4])
      + Triple(Find(four[0]), Find(four[1]), Find(four[2]), Find(four[3]))
    ensures WholeGroups(p, 4)
  {
    hide DecodeLetters, Triple, Find;
    DecodeAppend(s[..p - 4], four);
    Joined(s, p - 4, four);
    OneTriple(four);
  }

  lemma DecodeEnd(s: seq<Byte>, p: nat, i: nat, rest: seq<Byte>)
    requires i <= p <= |s| && WholeGroups(p - i, 4) && |rest| == i && forall k :: 0 <= k < i ==> rest[k] == s[p - i + k]
    requires (forall k :: 0 <= k < p ==> IsBase64(s[k])) && (p == |s| || s[p] == PAD || !IsBase64(s[p]))
    ensures Decode(s) == DecodeLetters(s[..p - i]) + DecodeLetters(rest) && (i == 0 ==> DecodeLetters(rest) == [])
  {
    hide Triple, Find, Letters, IsBase64, DecodeLetters;
    LettersEnd(s, p);
    DecodeAppend(s[..p - i], rest);
    Joined(s, p - i, rest);
    NothingDecoded();
  }

  /** base64_decode */
  method Base64Decode(encoded: seq<Byte>) returns (ret: seq<Byte>)
    ensures ret == Decode(encoded)
  {
    hide DecodeLetters, Triple, Find, Decode, IsBase64, WholeGroups;
    ret := [];
    NoGroup(4);
    var four := new Byte[4];
    var i, p := 0, 0;
    NothingDecoded();
    while p < |encoded| && encoded[p] != PAD && IsBase64(encoded[p])
      invariant 0 <= i < 4 && i <= p <= |encoded| && WholeGroups(p - i, 4)
        && forall k :: 0 <= k < i ==> four[k] == encoded[p - i + k]
      invariant forall k :: 0 <= k < p ==> IsBase64(encoded[k])
      invariant ret == DecodeLetters(encoded[..p - i])
      decreases |encoded| - p
    {
      four[i] := encoded[p];
      i, p := i + 1, p + 1;
      if i == 4 {
        DecodeGroup(encoded, p, four[..]);
        ret := ret + Triple(Find(four[0]), Find(four[1]), Find(four[2]), Find(four[3]));
        i := 0;
      }
    }
    DecodeEnd(encoded, p, i, four[..i]);
    if i != 0 {
      var last := DecodeRest(four, i);
      ret := ret + last;
    }
  }

  lemma NothingDecoded()
    ensures DecodeLetters([]) == []
  {
  }

  lemma OneTriple(s: seq<Byte>)
    requires |s| == 4
    ensures DecodeLetters(s) == Triple(Find(s[0]), Find(s[1]), Find(s[2]), Find(s[3]))
  {
    hide Triple, Find;
    assert DecodeLetters(s) == Triple(Find(s[0]), Find(s[1]), Find(s[2]), Find(s[3])) + DecodeLetters(s[4..]);
  }

  /** The last one to three letters; the other slots are looked up too, and not used. */
  method DecodeRest(four: array<Byte>, i: nat) returns (ret: seq<Byte>)
    requires four.Length == 4 && 1 <= i <= 3
    modifies four
    ensures ret == DecodeLetters(old(four[..i]))
  {
    hide Find;
    var j := i;
    while j < 4
      invariant i <= j <= 4 && forall k :: 0 <= k < 4 ==> four[k] == if i <= k < j then 0 else old(four[k])
    {
      four[j] := 0;
      j := j + 1;
    }
    var three := Triple(Find(four[0]), Find(four[1]), Find(four[2]), Find(four[3]));
    ret := three[..i - 1];
  }
}
