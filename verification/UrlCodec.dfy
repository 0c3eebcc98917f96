// Percent-encoding, decoding that may be done in place, and the cleaning of request paths.
module UrlCodec {
  import opened Bytes
  import RequestParser

  const PERCENT: Byte := '%' as int
  const PLUS: Byte := '+' as int
  const BLANK: Byte := ' ' as int
  const DOT: Byte := '.' as int

  // ---- Decoding ----

  predicate IsDigit(b: Byte) { '0' as int <= b <= '9' as int }

  predicate IsHexDigit(b: Byte) { IsDigit(b) || 'a' as int <= b <= 'f' as int || 'A' as int <= b <= 'F' as int }

  function HexValue(b: Byte): (v: nat)
    requires IsHexDigit(b)
    ensures v < 16
  {
    if IsDigit(b) then b - '0' as int else if b >= 'a' as int then b - 'a' as int + 10 else b - 'A' as int + 10
  }

  /** A percent sign with two hexadecimal digits behind it. */
  predicate IsEscape(s: seq<Byte>) {
    |s| >= 3 && s[0] == PERCENT && IsHexDigit(s[1]) && IsHexDigit(s[2])
  }

  /** Both cases of the hexadecimal digits count. */
  lemma HexDigits(v: nat)
    requires v < 16
    ensures var upper, lower := "0123456789ABCDEF"[v] as int, "0123456789abcdef"[v] as int;
      IsHexDigit(upper) && HexValue(upper) == v && IsHexDigit(lower) && HexValue(lower) == v
  {
  }

  function DecodeFirst(s: seq<Byte>, form: bool): Byte
    requires s != []
  {
    if IsEscape(s) then 16 * HexValue(s[1]) + HexValue(s[2]) else if form && s[0] == PLUS then BLANK else s[0]
  }

  /** A plus sign stands for a space in a form, and for itself elsewhere. */
  lemma PlusIsSpace(rest: seq<Byte>)
    ensures DecodeFirst([0x2B] + rest, true) == 0x20 && DecodeFirst([0x2B] + rest, false) == 0x2B
  {
  }

  function Width(s: seq<Byte>): (w: nat)
    requires s != []
    ensures 1 <= w <= |s|
  {
    if IsEscape(s) then 3 else 1
  }

  /** The decoded string; in a form a plus sign stands for a space. */
  function Decode(s: seq<Byte>, form: bool): (r: seq<Byte>)
    ensures |r| <= |s|
  {
    if s == [] then [] else [DecodeFirst(s, form)] + Decode(s[Width(s)..], form)
  }

  function Take(s: seq<Byte>, n: nat): seq<Byte> { if |s| <= n then s else s[..n] }

  /** The macro HEXTOI behind tolower. */
  function HexToInt(x: Byte): int {
    var lower: int := if 'A' as int <= x <= 'Z' as int then x + 32 else x;
    if '0' as int <= lower <= '9' as int then lower - '0' as int else lower - 'W' as int
  }

  lemma HexToIntIsValue(x: Byte)
    requires IsHexDigit(x)
    ensures HexToInt(x) == HexValue(x)
  {
  }

  /** What url_decode reads out of the first n bytes: an escape that begins among them may end behind them. */
  function DecodeN(s: seq<Byte>, n: nat, form: bool): (r: seq<Byte>)
    ensures |r| <= n
  {
    if s == [] || n == 0 then []
    else [DecodeFirst(s, form)] + DecodeN(s[Width(s)..], if n < Width(s) then 0 else n - Width(s), form)
  }

  lemma TakeTail(s: seq<Byte>, w: nat, n: nat)
    requires w <= |s| && w <= n
    ensures Take(s, n)[w..] == Take(s[w..], n - w)
  {
    if n < |s| {
      assert s[..n][w..] == s[w..][..n - w];
    }
  }

  predicate EscapeAt(s: seq<Byte>, i: nat) { i <= |s| && IsEscape(s[i..]) }

  /** An escape begins with the last byte of the first n or the one before it, and goes on behind them. It does
      no harm when its sign alone, which is then the last byte, means the same as the whole: "%25". */
  predicate CutOff(s: seq<Byte>, n: nat) {
    || (n >= 2 && EscapeAt(s, n - 2))
    || (n >= 1 && EscapeAt(s, n - 1) && DecodeFirst(s[n - 1..], false) != PERCENT)
  }

  /** The n bytes are decoded by themselves, without what lies behind them, if and only if they do not cut off an
      escape. */
  lemma {:induction false} DecodesAloneIff(s: seq<Byte>, n: nat, form: bool)
    ensures DecodeN(s, n, form) == Decode(Take(s, n), form) <==> !CutOff(s, n)
    decreases n
  {
    hide Decode, DecodeN, CutOff, Take, IsEscape, DecodeFirst;
    if s == [] || n == 0 {
      NothingDecoded(s, n, form);
      NothingCutOff(s, n);
    } else if Width(s) <= n {
      var w := Width(s);
      SameFirst(s, n, form);
      CutOffLater(s, n);
      hide Width;
      TakeTail(s, w, n);
      DecodesAloneIff(s[w..], n - w, form);
      DecodeNCons(s, n, form);
      DecodeCons(Take(s, n), form);
      SameRest(DecodeFirst(s, form), DecodeN(s[w..], n - w, form), Decode(Take(s[w..], n - w), form));
    } else {
      FirstCutOff(s, n, form);
    }
  }

  lemma NothingCutOff(s: seq<Byte>, n: nat)
    requires s == [] || n == 0
    ensures !CutOff(s, n)
  {
  }

  lemma SameRest(b: Byte, s: seq<Byte>, t: seq<Byte>)
    ensures [b] + s == [b] + t <==> s == t
  {
    assert ([b] + s)[1..] == s && ([b] + t)[1..] == t;
  }

  lemma SameFirst(s: seq<Byte>, n: nat, form: bool)
    requires s != [] && n != 0 && Width(s) <= n
    ensures Take(s, n) != [] && DecodeFirst(Take(s, n), form) == DecodeFirst(s, form) && Width(Take(s, n)) == Width(s)
  {
    assert IsEscape(s) <==> IsEscape(Take(s, n));
  }

  /** A percent sign always begins what is read next: the bytes of an escape before it are digits. */
  lemma CutOffLater(s: seq<Byte>, n: nat)
    requires s != [] && Width(s) <= n
    ensures CutOff(s, n) <==> CutOff(s[Width(s)..], n - Width(s))
  {
    hide EscapeAt, DecodeFirst, Width;
    if n >= 2 {
      EscapeLater(s, n - 2);
    }
    EscapeLater(s, n - 1);
  }

  lemma EscapeLater(s: seq<Byte>, i: nat)
    requires s != []
    ensures i < Width(s) && EscapeAt(s, i) ==> i == 0 && Width(s) == 3
    ensures i >= Width(s) ==> (EscapeAt(s, i) <==> EscapeAt(s[Width(s)..], i - Width(s)))
    ensures i >= Width(s) && EscapeAt(s, i) ==> s[i..] == s[Width(s)..][i - Width(s)..]
  {
    if 0 < i < Width(s) {
      assert s[i..][0] == s[i];
    } else if i == 0 {
      assert s[0..] == s;
    } else if i <= |s| {
      assert s[Width(s)..][i - Width(s)..] == s[i..];
    }
  }

  lemma FirstCutOff(s: seq<Byte>, n: nat, form: bool)
    requires s != [] && 0 < n < Width(s)
    ensures CutOff(s, n) <==> DecodeN(s, n, form) != Decode(Take(s, n), form)
  {
    assert s[0..] == s && IsEscape(s);
    var t := Take(s, n);
    assert DecodeN(s, n, form) == [DecodeFirst(s, form)] by {
      assert DecodeN(s[3..], 0, form) == [];
    }
    assert Decode(t, form) == [PERCENT] + Decode(t[1..], form);
    if n == 1 {
      assert t[1..] == [] && Decode(t, form) == [PERCENT];
      assert CutOff(s, n) <==> DecodeFirst(s, form) != PERCENT;
    } else {
      assert |Decode(t, form)| == 2;
      assert EscapeAt(s, 0);
    }
  }

  /** Only a hexadecimal digit behind them can complete an escape: with a NUL or a separator none is cut off. */
  lemma OnlyDigitsComplete(s: seq<Byte>, n: nat)
    ensures CutOff(s, n) ==> n < |s| && IsHexDigit(s[n])
  {
    if n >= 2 && EscapeAt(s, n - 2) {
      assert s[n - 2..][2] == s[n];
    }
    if n >= 1 && EscapeAt(s, n - 1) {
      assert s[n - 1..][1] == s[n];
    }
  }

  lemma DecodeCons(s: seq<Byte>, form: bool)
    requires s != []
    ensures Decode(s, form) == [DecodeFirst(s, form)] + Decode(s[Width(s)..], form)
  {
  }

  lemma DecodeNCons(s: seq<Byte>, n: nat, form: bool)
    requires s != [] && Width(s) <= n
    ensures DecodeN(s, n, form) == [DecodeFirst(s, form)] + DecodeN(s[Width(s)..], n - Width(s), form)
  {
  }

  lemma NothingDecoded(s: seq<Byte>, n: nat, form: bool)
    requires s == [] || n == 0
    ensures DecodeN(s, n, form) == Decode(Take(s, n), form) == []
  {
  }

  /** Such an input: "%4" read with "1" behind it gives "A". */
  lemma EscapeReadsOn(form: bool)
    ensures var s: seq<Byte> := [PERCENT, '4' as int, '1' as int];
      DecodeN(s, 2, form) == ['A' as int] && Decode(s[..2], form) == s[..2]
  {
    var s: seq<Byte> := [PERCENT, '4' as int, '1' as int];
    assert DecodeFirst(s, form) == 'A' as int && DecodeN(s[3..], 0, form) == [];
    assert s[..2][1..] == [s[1]] && s[..2][0] == PERCENT;
    assert Decode([s[1]], form) == [s[1]] + Decode([s[1]][1..], form);
  }

  /** url_decode. The destination may be the source itself: the write index never passes the read index, so
      what is read is still the original. */
  method UrlDecode(src: array<Byte>, srcLen: nat, dst: array<Byte>, dstLen: nat, form: bool) returns (j: nat)
    requires srcLen < src.Length && (IsHexDigit(src[srcLen]) ==> srcLen + 1 < src.Length) && 1 <= dstLen <= dst.Length
    modifies dst
    ensures j < dstLen && dst[j] == 0 && dst[..j] == Take(DecodeN(old(src[..]), srcLen, form), dstLen - 1)
    ensures !old(CutOff(src[..], srcLen)) ==> dst[..j] == Take(Decode(old(src[..srcLen]), form), dstLen - 1)
    ensures !old(IsHexDigit(src[srcLen])) ==> dst[..j] == Take(Decode(old(src[..srcLen]), form), dstLen - 1)
    ensures forall k :: j < k < dst.Length ==> dst[k] == old(dst[k])
  {
    hide Decode, DecodeN, Take, DecodeFirst, Width, IsHexDigit, CutOff, Left;
    ghost var s := src[..];
    SourceAlone(s, srcLen, form);
    var i := 0;
    j := 0;
    NothingTaken(s, srcLen, form, dstLen - 1);
    while i < srcLen && j < dstLen - 1
      invariant j <= i <= src.Length && j <= dstLen - 1
      invariant src[i..] == s[i..]
      invariant forall k :: j <= k < dst.Length ==> dst[k] == old(dst[k])
      invariant dst[..j] + Take(DecodeN(s[i..], Left(srcLen, i), form), dstLen - 1 - j)
        == Take(DecodeN(s, srcLen, form), dstLen - 1)
      decreases srcLen - i
    {
      ghost var before := dst[..j];
      SameTail(src[..], s, i, srcLen);
      var c, w := DecodeOne(src, srcLen, i, form, s[i..]);
      DecodeStep(s, i, srcLen, form, dstLen - 1 - j, before);
      SameTail(src[..], s, i, i + w);
      dst[j] := c;
      assert dst[..j + 1] == before + [c];
      i := i + w;
      j := j + 1;
    }
    NothingLeft(s[i..], srcLen, i, form, dstLen - 1 - j);
    dst[j] := 0;
  }

  ghost function Left(n: nat, i: nat): nat { if n < i then 0 else n - i }

  lemma DecodeStep(s: seq<Byte>, i: nat, n: nat, form: bool, room: nat, before: seq<Byte>)
    requires i < n < |s| && room > 0
    ensures var w := Width(s[i..]);
      before + Take(DecodeN(s[i..], Left(n, i), form), room)
      == before + [DecodeFirst(s[i..], form)] + Take(DecodeN(s[i + w..], Left(n, i + w), form), room - 1)
  {
    hide DecodeFirst, Width, IsEscape, IsHexDigit, Take;
    var w := Width(s[i..]);
    assert s[i..][w..] == s[i + w..];
    TakeCons(DecodeFirst(s[i..], form), DecodeN(s[i + w..], Left(n, i + w), form), room);
  }

  lemma TakeCons(b: Byte, s: seq<Byte>, room: nat)
    requires room > 0
    ensures Take([b] + s, room) == [b] + Take(s, room - 1)
  {
  }

  lemma SameTail(now: seq<Byte>, was: seq<Byte>, i: nat, k: nat)
    requires |now| == |was| && i <= k <= |was| && now[i..] == was[i..]
    ensures now[k..] == was[k..] && (k < |was| ==> now[k] == was[k])
  {
    assert now[k..] == now[i..][k - i..] && was[k..] == was[i..][k - i..];
    if k < |was| {
      assert now[k..][0] == was[k..][0];
    }
  }

  lemma SourceAlone(s: seq<Byte>, n: nat, form: bool)
    requires n < |s|
    ensures !CutOff(s, n) ==> DecodeN(s, n, form) == Decode(s[..n], form)
    ensures !IsHexDigit(s[n]) ==> !CutOff(s, n)
  {
    DecodesAloneIff(s, n, form);
    OnlyDigitsComplete(s, n);
  }

  lemma NothingTaken(s: seq<Byte>, n: nat, form: bool, room: nat)
    ensures s[0..] == s && [] + Take(DecodeN(s, Left(n, 0), form), room) == Take(DecodeN(s, n, form), room)
  {
  }

  lemma NothingLeft(s: seq<Byte>, n: nat, i: nat, form: bool, room: nat)
    requires n <= i || room == 0
    ensures Take(DecodeN(s, Left(n, i), form), room) == []
  {
  }

  /** The character at i, and how many bytes stand for it. */
  method DecodeOne(src: array<Byte>, srcLen: nat, i: nat, form: bool, ghost rest: seq<Byte>) returns (c: Byte, w: nat)
    requires i < srcLen < src.Length && (IsHexDigit(src[srcLen]) ==> srcLen + 1 < src.Length) && src[i..] == rest
    ensures c == DecodeFirst(rest, form) && w == Width(rest)
  {
    assert forall k :: i <= k < src.Length ==> src[k] == rest[k - i];
    if src[i] == PERCENT && IsHexDigit(src[i + 1]) && IsHexDigit(src[i + 2]) {
      var a, b := HexToInt(src[i + 1]), HexToInt(src[i + 2]);
      HexToIntIsValue(src[i + 1]);
      HexToIntIsValue(src[i + 2]);
      c, w := 16 * a + b, 3;
    } else if form && src[i] == PLUS {
      c, w := BLANK, 1;
    } else {
      c, w := src[i], 1;
    }
  }

  // ---- Encoding ----

  predicate Unescaped(b: Byte) {
    || '0' as int <= b <= '9' as int || 'a' as int <= b <= 'z' as int || 'A' as int <= b <= 'Z' as int
    || b in {'.' as int, '_' as int, '-' as int, '$' as int, ',' as int, ';' as int, '~' as int, '(' as int, ')' as int}
  }

  const UPPER := "ABCDEFGHIJKLMNOPQRSTUVWXYZ"
  const LOWER := "abcdefghijklmnopqrstuvwxyz"
  const KEPT := UPPER + LOWER + "0123456789" + "._-$,;~()"

  predicate Holds(s: string, b: Byte) { exists i :: 0 <= i < |s| && s[i] as int == b }

  /** The bytes that are not escaped are the letters, the digits and the nine others of the program. */
  lemma KeptCharacters(b: Byte)
    ensures Unescaped(b) <==> Holds(KEPT, b)
  {
    HoldsEither(UPPER + LOWER + "0123456789", "._-$,;~()", b);
    HoldsEither(UPPER + LOWER, "0123456789", b);
    HoldsEither(UPPER, LOWER, b);
    hide Holds;
    UpperHolds(b);
    LowerHolds(b);
    DigitsHold(b);
    OthersHold(b);
  }

  lemma HoldsEither(s: string, t: string, b: Byte)
    ensures Holds(s + t, b) <==> Holds(s, b) || Holds(t, b)
  {
    if i :| 0 <= i < |s| && s[i] as int == b {
      assert (s + t)[i] == s[i];
    }
    if i :| 0 <= i < |t| && t[i] as int == b {
      assert (s + t)[|s| + i] == t[i];
    }
  }

  lemma UpperHolds(b: Byte)
    ensures Holds(UPPER, b) <==> 0x41 <= b <= 0x5A
  {
    if 0x41 <= b <= 0x5A {
      assert UPPER[b - 0x41] as int == b;
    }
  }

  lemma LowerHolds(b: Byte)
    ensures Holds(LOWER, b) <==> 0x61 <= b <= 0x7A
  {
    if 0x61 <= b <= 0x7A {
      assert LOWER[b - 0x61] as int == b;
    }
  }

  lemma DigitsHold(b: Byte)
    ensures Holds("0123456789", b) <==> 0x30 <= b <= 0x39
  {
    if 0x30 <= b <= 0x39 {
      assert "0123456789"[b - 0x30] as int == b;
    }
  }

  lemma OthersHold(b: Byte)
    ensures Holds("._-$,;~()", b) <==> b in {0x2E, 0x5F, 0x2D, 0x24, 0x2C, 0x3B, 0x7E, 0x28, 0x29}
  {
    var s := "._-$,;~()";
    assert s[0] == '.' && s[1] == '_' && s[2] == '-' && s[3] == '$' && s[4] == ',' && s[5] == ';' && s[6] == '~';
    assert s[7] == '(' && s[8] == ')';
  }

  function HexDigit(v: nat): Byte
    requires v < 16
  {
    if v < 10 then '0' as int + v else 'a' as int + v - 10
  }

  function EncodeByte(b: Byte): (r: seq<Byte>)
    ensures 1 <= |r| <= 3
  {
    if Unescaped(b) then [b] else [PERCENT, HexDigit(b / 16), HexDigit(b % 16)]
  }

  function Encode(s: seq<Byte>): (r: seq<Byte>)
    ensures |s| <= |r| <= 3 * |s|
  {
    if s == [] then [] else EncodeByte(s[0]) + Encode(s[1..])
  }

  lemma DecodeEncodedByte(b: Byte, rest: seq<Byte>, form: bool)
    ensures var s := EncodeByte(b) + rest;
      DecodeFirst(s, form) == b && Width(s) == |EncodeByte(b)| && s[Width(s)..] == rest
  {
  }

  /** Decoding undoes encoding, in a form and elsewhere. */
  lemma {:induction false} DecodeEncode(s: seq<Byte>, form: bool)
    ensures Decode(Encode(s), form) == s
  {
    if s != [] {
      DecodeEncodedByte(s[0], Encode(s[1..]), form);
      DecodeEncode(s[1..], form);
    }
  }

  /** What is written for one byte where `under` lies: an escape for which there is no room leaves the byte
      that was there. */
  function PieceIn(b: Byte, under: seq<Byte>): (r: seq<Byte>)
    requires under != []
    ensures 1 <= |r| <= |under|
  {
    if Unescaped(b) || |under| >= 3 then EncodeByte(b) else under[..1]
  }

  /** The encoded string as it comes to lie over the bytes `under`. */
  function EncodedIn(s: seq<Byte>, under: seq<Byte>): (r: seq<Byte>)
    ensures |r| <= |under|
  {
    if s == [] || under == [] then []
    else var piece := PieceIn(s[0], under); piece + EncodedIn(s[1..], under[|piece|..])
  }

  /** It is the encoded string exactly when that fits. */
  lemma {:induction false} EncodedWhole(s: seq<Byte>, under: seq<Byte>)
    ensures EncodedIn(s, under) == Encode(s) <==> |Encode(s)| <= |under|
  {
    if |Encode(s)| <= |under| && s != [] {
      EncodedWhole(s[1..], under[|PieceIn(s[0], under)|..]);
    }
  }

  /** url_encode: the encoded string exactly when there is room for it; three bytes for each byte and one
      for the NUL always suffice. */
  method UrlEncode(src: seq<Byte>, dst: array<Byte>, dstLen: nat) returns (n: nat)
    requires 1 <= dstLen <= dst.Length && forall i :: 0 <= i < |src| ==> src[i] != 0
    modifies dst
    ensures n < dstLen && dst[n] == 0 && dst[..n] == EncodedIn(src, old(dst[..dstLen - 1]))
    ensures dst[..n] == Encode(src) <==> |Encode(src)| < dstLen
    ensures dst[n + 1..] == old(dst[n + 1..])
  {
    hide Encode, EncodeByte, EncodedIn, PieceIn;
    n := 0;
    var end := dstLen - 1;
    var i := 0;
    ghost var was := dst[..];
    EncodedWhole(src, was[..end]);
    assert src[0..] == src;
    while i < |src| && n < end
      invariant i <= |src| && n <= end
      invariant dst[n..] == was[n..]
      invariant dst[..n] + EncodedIn(src[i..], was[n..end]) == EncodedIn(src, was[..end])
    {
      ghost var at, now := n, dst[..];
      EncodedStep(src, i, was, at, end, dst[..n]);
      SamePiece(now, was, at, end);
      n := PutEncoded(src[i], dst, n, end, was[at..end]);
      SameTail(now, was, at, n);
      i := i + 1;
    }
    NothingEncoded(src[i..], was[n..end]);
    SameTail(dst[..], was, n, n + 1);
    dst[n] := 0;
    assert dst[n + 1..] == was[n + 1..];
  }

  lemma EncodedStep(s: seq<Byte>, i: nat, was: seq<Byte>, at: nat, end: nat, before: seq<Byte>)
    requires i < |s| && at < end <= |was|
    ensures var piece := PieceIn(s[i], was[at..end]);
      before + EncodedIn(s[i..], was[at..end]) == before + piece + EncodedIn(s[i + 1..], was[at + |piece|..end])
  {
    var piece := PieceIn(s[i], was[at..end]);
    assert s[i..][1..] == s[i + 1..] && was[at..end][|piece|..] == was[at + |piece|..end];
  }

  lemma SamePiece(now: seq<Byte>, was: seq<Byte>, i: nat, k: nat)
    requires |now| == |was| && i <= k <= |was| && now[i..] == was[i..]
    ensures now[i..k] == was[i..k]
  {
    assert now[i..k] == now[i..][..k - i] && was[i..k] == was[i..][..k - i];
  }

  lemma NothingEncoded(s: seq<Byte>, under: seq<Byte>)
    requires s == [] || under == []
    ensures EncodedIn(s, under) == []
  {
  }

  /** One turn of the loop. */
  method PutEncoded(b: Byte, dst: array<Byte>, at: nat, end: nat, ghost under: seq<Byte>) returns (n: nat)
    requires at < end < dst.Length && dst[at..end] == under
    modifies dst
    ensures n == at + |PieceIn(b, under)| && dst[..n] == old(dst[..at]) + PieceIn(b, under)
    ensures dst[n..] == old(dst[n..])
  {
    assert dst[at] == under[0];
    n := at;
    if Unescaped(b) {
      dst[n] := b;
    } else if n + 2 < end {
      dst[n] := PERCENT;
      dst[n + 1] := HexDigit(b / 16);
      dst[n + 2] := HexDigit(b % 16);
      n := n + 2;
    }
    n := n + 1;
  }

  // ---- Path cleaning ----

  predicate IsSeparator(b: Byte) { b == '/' as int || b == '\\' as int }

  function SkipSeparators(s: seq<Byte>): (r: seq<Byte>)
    ensures |r| <= |s| && (r != [] ==> !IsSeparator(r[0]))
  {
    if s != [] && IsSeparator(s[0]) then SkipSeparators(s[1..]) else s
  }

  function SkipDots(s: seq<Byte>): (r: seq<Byte>)
    ensures |r| <= |s| && !(|r| >= 2 && r[0] == DOT && r[1] == DOT)
  {
    if |s| >= 2 && s[0] == DOT && s[1] == DOT then SkipDots(s[2..]) else s
  }

  /** Behind each separator, further separators and then double dots are left out. */
  function Cleaned(s: seq<Byte>): (r: seq<Byte>)
    ensures |r| <= |s|
    decreases |s|
  {
    if s == [] then []
    else [s[0]] + Cleaned(if IsSeparator(s[0]) then SkipDots(SkipSeparators(s[1..])) else s[1..])
  }

  predicate NoDotsBehindSeparator(s: seq<Byte>) {
    forall i :: 0 <= i < |s| - 2 && IsSeparator(s[i]) ==> !(s[i + 1] == DOT && s[i + 2] == DOT)
  }

  /** Cleaning keeps the first byte, and one that is no separator with what follows it. */
  lemma CleanedBegins(s: seq<Byte>)
    ensures s != [] ==> Cleaned(s) != [] && Cleaned(s)[0] == s[0]
    ensures |s| >= 2 && !IsSeparator(s[0]) ==> |Cleaned(s)| >= 2 && Cleaned(s)[1] == s[1]
    ensures |s| == 1 ==> |Cleaned(s)| == 1
  {
    if |s| >= 2 && !IsSeparator(s[0]) {
      assert Cleaned(s) == [s[0]] + Cleaned(s[1..]);
    }
  }

  /** A cleaned path never holds a separator with two dots behind it. */
  lemma {:induction false} CleanedPathIsSafe(s: seq<Byte>)
    ensures NoDotsBehindSeparator(Cleaned(s))
    decreases |s|
  {
    if s != [] {
      var rest := if IsSeparator(s[0]) then SkipDots(SkipSeparators(s[1..])) else s[1..];
      CleanedPathIsSafe(rest);
      CleanedBegins(rest);
      SafeCons(s[0], Cleaned(rest));
    }
  }

  /** In so many characters: neither a slash nor a backslash is followed by two dots. */
  lemma NoClimbing(s: seq<Byte>, i: nat)
    requires i + 2 < |Cleaned(s)| && (Cleaned(s)[i] == 0x2F || Cleaned(s)[i] == 0x5C)
    ensures !(Cleaned(s)[i + 1] == 0x2E && Cleaned(s)[i + 2] == 0x2E)
  {
    CleanedPathIsSafe(s);
    hide Cleaned;
    assert IsSeparator(Cleaned(s)[i]);
  }

  lemma SafeCons(b: Byte, s: seq<Byte>)
    requires NoDotsBehindSeparator(s) && (IsSeparator(b) ==> !(|s| >= 2 && s[0] == DOT && s[1] == DOT))
    ensures NoDotsBehindSeparator([b] + s)
  {
    var all := [b] + s;
    forall i | 0 <= i < |all| - 2 && IsSeparator(all[i]) ensures !(all[i + 1] == DOT && all[i + 2] == DOT) {
      if i > 0 {
        assert all[i] == s[i - 1] && all[i + 1] == s[i] && all[i + 2] == s[i + 1];
      }
    }
  }

  /** Nothing to clean: no separator with another one or with two dots behind it. */
  predicate IsClean(s: seq<Byte>) {
    && NoDotsBehindSeparator(s)
    && forall i :: 0 < i < |s| ==> !(IsSeparator(s[i - 1]) && IsSeparator(s[i]))
  }

  lemma IsCleanTail(s: seq<Byte>)
    requires s != [] && IsClean(s)
    ensures IsClean(s[1..])
    ensures Cleaned(s) == [s[0]] + Cleaned(s[1..])
  {
    var rest := s[1..];
    forall i | 0 <= i < |rest| - 2 && IsSeparator(rest[i]) ensures !(rest[i + 1] == DOT && rest[i + 2] == DOT) {
      assert IsSeparator(s[i + 1]);
    }
    if IsSeparator(s[0]) && rest != [] {
      assert !IsSeparator(s[1]) && SkipSeparators(rest) == rest;
    }
  }

  /** Cleaning a clean path changes nothing. */
  lemma {:induction false} CleanStaysClean(s: seq<Byte>)
    requires IsClean(s)
    ensures Cleaned(s) == s
  {
    if s != [] {
      IsCleanTail(s);
      CleanStaysClean(s[1..]);
    }
  }

  predicate AllDots(s: seq<Byte>) { forall k :: 0 <= k < |s| ==> s[k] == DOT }

  /** Two separators, and between them an even number of dots, at least two. */
  predicate Dotted(s: seq<Byte>, i: nat, j: nat) {
    i + 2 < j < |s| && IsSeparator(s[i]) && IsSeparator(s[j]) && (j - i) % 2 == 1 && AllDots(s[i + 1..j])
  }

  ghost predicate SomeDotted(s: seq<Byte>) { exists i: nat, j: nat :: Dotted(s, i, j) }

  predicate Double(s: seq<Byte>, i: nat) { i + 1 < |s| && IsSeparator(s[i]) && IsSeparator(s[i + 1]) }

  ghost predicate SomeDouble(s: seq<Byte>) { exists i: nat :: Double(s, i) }

  /** Cleaning is meant to remove double slashes. It leaves two separators together exactly when the path held
      two with pairs of dots between them. */
  lemma {:induction false} DoubleSeparatorIff(s: seq<Byte>)
    ensures SomeDouble(Cleaned(s)) <==> SomeDotted(s)
    decreases |s|
  {
    if s != [] {
      var rest := if IsSeparator(s[0]) then SkipDots(SkipSeparators(s[1..])) else s[1..];
      DoubleSeparatorIff(rest);
      CleanedBegins(rest);
      DoubleCons(s[0], Cleaned(rest));
      DottedCons(s);
    }
  }

  lemma DoubleCons(b: Byte, s: seq<Byte>)
    ensures SomeDouble([b] + s) <==> SomeDouble(s) || (IsSeparator(b) && s != [] && IsSeparator(s[0]))
  {
    var all := [b] + s;
    if i: nat :| Double(all, i) {
      assert i > 0 ==> Double(s, i - 1);
    }
    if i: nat :| Double(s, i) {
      assert Double(all, i + 1);
    }
    assert IsSeparator(b) && s != [] && IsSeparator(s[0]) ==> Double(all, 0);
  }

  lemma DottedShift(s: seq<Byte>, a: nat, i: nat, j: nat)
    requires a <= |s| && a <= i && a <= j
    ensures Dotted(s, i, j) <==> Dotted(s[a..], i - a, j - a)
  {
    if j < |s| && i < j {
      assert s[i + 1..j] == s[a..][i - a + 1..j - a];
    }
  }

  lemma DottedCons(s: seq<Byte>)
    requires s != []
    ensures var rest := if IsSeparator(s[0]) then SkipDots(SkipSeparators(s[1..])) else s[1..];
      SomeDotted(s) <==> SomeDotted(rest) || (IsSeparator(s[0]) && rest != [] && IsSeparator(rest[0]))
  {
    hide Dotted, SkipDots, SkipSeparators;
    var a, b := 1, 1;
    if IsSeparator(s[0]) {
      a, b := Behind(s);
    }
    DottedRest(s, a, b, s[b..]);
  }

  lemma DottedRest(s: seq<Byte>, a: nat, b: nat, rest: seq<Byte>)
    requires s != [] && b <= |s| && rest == s[b..] && if IsSeparator(s[0]) then Skipped(s, a, b) else b == 1
    ensures SomeDotted(s) <==> SomeDotted(rest) || (IsSeparator(s[0]) && rest != [] && IsSeparator(rest[0]))
  {
    hide Dotted, Skipped;
    if i: nat, j: nat :| Dotted(s, i, j) {
      DottedReaches(s, a, b, i, j);
    }
    if i: nat, j: nat :| Dotted(rest, i, j) {
      DottedShift(s, b, i + b, j + b);
      assert Dotted(s, i + b, j + b);
    }
    if IsSeparator(s[0]) && rest != [] && IsSeparator(rest[0]) {
      AcrossDots(s, a, b);
    }
  }

  // s is separators up to a, pairs of dots from there to b, and then no further pair.
  ghost predicate Skipped(s: seq<Byte>, a: nat, b: nat) {
    && 1 <= a <= b <= |s| && (b - a) % 2 == 0
    && (forall k :: 0 <= k < a ==> IsSeparator(s[k])) && (forall k :: a <= k < b ==> s[k] == DOT)
    && !(a == b < |s| && IsSeparator(s[b])) && !(b + 1 < |s| && s[b] == DOT && s[b + 1] == DOT)
  }

  lemma Behind(s: seq<Byte>) returns (a: nat, b: nat)
    requires s != [] && IsSeparator(s[0])
    ensures Skipped(s, a, b) && SkipDots(SkipSeparators(s[1..])) == s[b..]
  {
    hide SkipDots, SkipSeparators, IsSeparator;
    a := SeparatorsSkipped(s, 1);
    b := DotsSkipped(s, a);
    assert s[b..] == SkipDots(SkipSeparators(s[1..]));
  }

  lemma AcrossDots(s: seq<Byte>, a: nat, b: nat)
    requires Skipped(s, a, b) && b < |s| && IsSeparator(s[b])
    ensures a >= 1 && Dotted(s, a - 1, b)
  {
  }

  lemma DottedReaches(s: seq<Byte>, a: nat, b: nat, i: nat, j: nat)
    requires Dotted(s, i, j) && if IsSeparator(s[0]) then Skipped(s, a, b) else b == 1
    ensures (i >= b && j >= b && Dotted(s[b..], i - b, j - b))
      || (j == b < |s| && IsSeparator(s[0]) && IsSeparator(s[b..][0]))
  {
    assert forall k :: i < k < j ==> s[k] == s[i + 1..j][k - i - 1] == DOT;
    if i >= b {
      DottedShift(s, b, i, j);
    } else {
      assert IsSeparator(s[0]) && i < a && s[i + 1] == DOT;
      assert i == a - 1 && j >= b;
    }
  }

  lemma {:induction false} SeparatorsSkipped(s: seq<Byte>, i: nat) returns (a: nat)
    requires i <= |s|
    ensures i <= a <= |s| && SkipSeparators(s[i..]) == s[a..] && (forall k :: i <= k < a ==> IsSeparator(s[k]))
    ensures a < |s| ==> !IsSeparator(s[a])
    decreases |s| - i
  {
    if i < |s| && IsSeparator(s[i]) {
      assert s[i..][1..] == s[i + 1..];
      a := SeparatorsSkipped(s, i + 1);
    } else {
      a := i;
    }
  }

  lemma {:induction false} DotsSkipped(s: seq<Byte>, i: nat) returns (b: nat)
    requires i <= |s|
    ensures i <= b <= |s| && (b - i) % 2 == 0 && SkipDots(s[i..]) == s[b..] && forall k :: i <= k < b ==> s[k] == DOT
    ensures !(b + 1 < |s| && s[b] == DOT && s[b + 1] == DOT)
    decreases |s| - i
  {
    if i + 1 < |s| && s[i] == DOT && s[i + 1] == DOT {
      assert s[i..][2..] == s[i + 2..];
      b := DotsSkipped(s, i + 2);
    } else {
      b := i;
    }
  }

  predicate NoNul(s: seq<Byte>) { forall k :: 0 <= k < |s| ==> s[k] != 0 }

  lemma CleanedStep(b: seq<Byte>, s: nat, end: nat)
    requires s < end <= |b|
    ensures Cleaned(b[s..end]) == [b[s]] + Cleaned(if IsSeparator(b[s]) then SkipDots(SkipSeparators(b[s + 1..end]))
      else b[s + 1..end])
  {
    assert b[s..end][1..] == b[s + 1..end];
  }

  lemma SkipOneSeparator(b: seq<Byte>, s: nat, end: nat)
    requires s <= end <= |b|
    ensures SkipSeparators(b[s..end]) == if s < end && IsSeparator(b[s]) then SkipSeparators(b[s + 1..end])
      else b[s..end]
  {
    if s < end {
      assert b[s..end][1..] == b[s + 1..end];
    }
  }

  lemma SkipTwoDots(b: seq<Byte>, s: nat, end: nat)
    requires s <= end <= |b|
    ensures SkipDots(b[s..end]) == if s + 1 < end && b[s] == DOT && b[s + 1] == DOT then SkipDots(b[s + 2..end])
      else b[s..end]
  {
    if s + 1 < end {
      assert b[s..end][2..] == b[s + 2..end];
    }
  }

  /** The two inner loops: where reading goes on behind a separator, in a string that ends at `end`. */
  method SkipBehindSeparator(buf: array<Byte>, s0: nat, ghost end: nat) returns (s: nat)
    requires s0 <= end < buf.Length && buf[end] == 0
    ensures s0 <= s <= end && buf[s..end] == SkipDots(SkipSeparators(buf[s0..end]))
  {
    hide SkipSeparators, SkipDots;
    s := s0;
    // further separators
    while IsSeparator(buf[s])
      invariant s0 <= s <= end && SkipSeparators(buf[s..end]) == SkipSeparators(buf[s0..end])
      decreases buf.Length - s
    {
      SkipOneSeparator(buf[..], s, end);
      s := s + 1;
    }
    SkipOneSeparator(buf[..], s, end);
    ghost var rest := buf[s..end];
    // pairs of dots
    while buf[s] == DOT && buf[s + 1] == DOT
      invariant s0 <= s <= end && SkipDots(buf[s..end]) == SkipDots(rest)
      decreases buf.Length - s
    {
      SkipTwoDots(buf[..], s, end);
      s := s + 2;
    }
    SkipTwoDots(buf[..], s, end);
  }

  // Of the string at `at` that ended at `end`, what came before s is cleaned and now lies before p; what comes
  // from s on is still as it was.
  ghost predicate HalfCleaned(b: seq<Byte>, was: seq<Byte>, at: nat, p: nat, s: nat, end: nat) {
    && at <= p <= s <= end < |b| == |was|
    && b[..at] == was[..at] && b[s..] == was[s..]
    && NoNul(b[at..p])
    && b[at..p] + Cleaned(was[s..end]) == Cleaned(was[at..end])
  }

  /** *p++ = *s++ */
  method CopyDown(buf: array<Byte>, ghost was: seq<Byte>, ghost at: nat, p: nat, s: nat, ghost end: nat)
    requires HalfCleaned(buf[..], was, at, p, s, end) && s < end && was[s] != 0
    modifies buf
    ensures buf[s] == was[s] && buf[s + 1..] == was[s + 1..] && buf[..at] == was[..at]
    ensures buf[at..p + 1] == old(buf[at..p]) + [was[s]] && NoNul(buf[at..p + 1])
  {
    hide Cleaned;
    assert buf[s] == buf[s..][0] == was[s];
    assert buf[s + 1..] == buf[s..][1..] == was[s + 1..];
    buf[p] := buf[s];
    assert buf[at..p + 1] == buf[at..p] + [buf[p]];
  }

  /** One turn of the outer loop. */
  method CleanOne(buf: array<Byte>, ghost was: seq<Byte>, ghost at: nat, p0: nat, s0: nat, ghost end: nat)
    returns (p: nat, s: nat)
    requires HalfCleaned(buf[..], was, at, p0, s0, end) && s0 < end && was[s0] != 0 && was[end] == 0
    modifies buf
    ensures HalfCleaned(buf[..], was, at, p, s, end) && s0 < s
  {
    hide Cleaned, SkipDots, SkipSeparators, NoNul;
    ghost var done := buf[at..p0];
    CleanedStep(was, s0, end);
    CopyDown(buf, was, at, p0, s0, end);
    p, s := p0 + 1, s0 + 1;
    SamePiece(buf[..], was, s, end);
    SameTail(buf[..], was, s, end);
    if IsSeparator(buf[s - 1]) {
      s := SkipBehindSeparator(buf, s, end);
      SameTail(buf[..], was, s0 + 1, s);
      SamePiece(buf[..], was, s, end);
    }
    Reassociate(done, was[s0], Cleaned(was[s..end]));
  }

  /** remove_double_dots_and_double_slashes: cleans the string at `at` in place. */
  method RemoveDoubleDots(buf: array<Byte>, at: nat)
    requires RequestParser.Terminated(buf[..], at)
    modifies buf
    ensures RequestParser.Text(buf[..], at) == Cleaned(old(RequestParser.Text(buf[..], at)))
    ensures NoDotsBehindSeparator(RequestParser.Text(buf[..], at))
    ensures buf[..at] == old(buf[..at])
  {
    hide RequestParser.Text, Cleaned, NoDotsBehindSeparator;
    ghost var was, text := buf[..], RequestParser.Text(buf[..], at);
    RequestParser.TextEnds(was, at);
    ghost var end := at + |text|;
    CleanedPathIsSafe(text);
    var p, s := at, at;
    while buf[s] != 0
      invariant HalfCleaned(buf[..], was, at, p, s, end)
      decreases buf.Length - s
    {
      assert buf[s] == buf[..][s..][0] == was[s];
      p, s := CleanOne(buf, was, at, p, s, end);
    }
    assert buf[s] == buf[..][s..][0] == was[s];
    NothingToClean(was[s..end]);
    EndText(buf, at, p);
  }

  method EndText(buf: array<Byte>, ghost at: nat, p: nat)
    requires at <= p < buf.Length && NoNul(buf[at..p])
    modifies buf
    ensures RequestParser.Text(buf[..], at) == old(buf[at..p])
    ensures buf[..p] == old(buf[..p])
  {
    assert forall k :: at <= k < p ==> buf[k] == buf[at..p][k - at];
    buf[p] := 0;
    RequestParser.TextIs(buf[..], at, p);
    assert buf[..][at..p] == buf[at..p];
  }

  lemma Reassociate(a: seq<Byte>, c: Byte, b: seq<Byte>)
    ensures a + ([c] + b) == (a + [c]) + b
  {
  }

  lemma NothingToClean(s: seq<Byte>)
    requires s == []
    ensures Cleaned(s) == []
  {
  }
}
