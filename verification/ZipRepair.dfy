// Rebuilding the central directory of a damaged ZIP archive from its local entries
// (APPNOTE.TXT sections 4.3.7, 4.3.12 and 4.3.16).
module ZipFormat {
  import opened Bytes

  const LOCAL: Word32 := 0x04034b50
  const CENTRAL: Word32 := 0x02014b50
  const END: Word32 := 0x06054b50

  type Word16 = w: int | 0 <= w < 0x1_0000

  /** READ_16 */
  function Read16(s: seq<Byte>, at: nat): Word16
    requires at + 2 <= |s|
  {
    var low: int, high: int := s[at], s[at + 1];
    low + 0x100 * high
  }

  /** READ_32 */
  function Read32(s: seq<Byte>, at: nat): Word32
    requires at + 4 <= |s|
  {
    Read16(s, at) + 0x1_0000 * Read16(s, at + 2)
  }

  /** WRITE_16 */
  function Bytes16(n: int): (b: seq<Byte>)
    ensures |b| == 2
  {
    [n % 0x100, n / 0x100 % 0x100]
  }

  /** WRITE_32 */
  function Bytes32(n: int): (b: seq<Byte>)
    ensures |b| == 4
  {
    Bytes16(n % 0x1_0000) + Bytes16(n / 0x1_0000)
  }

  lemma Read16OfBytes(a: seq<Byte>, n: Word16, b: seq<Byte>)
    ensures Read16(a + Bytes16(n) + b, |a|) == n
  {
  }

  lemma Read32OfBytes(a: seq<Byte>, n: Word32, b: seq<Byte>)
    ensures Read32(a + Bytes32(n) + b, |a|) == n
  {
    Read16OfBytes(a, n % 0x1_0000, Bytes16(n / 0x1_0000) + b);
    Read16OfBytes(a + Bytes16(n % 0x1_0000), n / 0x1_0000, b);
    assert a + Bytes32(n) + b == a + Bytes16(n % 0x1_0000) + (Bytes16(n / 0x1_0000) + b);
    assert a + Bytes32(n) + b == a + Bytes16(n % 0x1_0000) + Bytes16(n / 0x1_0000) + b;
  }

  /** Reading does not depend on what comes before and behind. */
  lemma Read16Within(s: seq<Byte>, a: seq<Byte>, b: seq<Byte>, at: nat)
    requires at + 2 <= |s|
    ensures Read16(a + s + b, |a| + at) == Read16(s, at)
  {
  }

  lemma Read32Within(s: seq<Byte>, a: seq<Byte>, b: seq<Byte>, at: nat)
    requires at + 4 <= |s|
    ensures Read32(a + s + b, |a| + at) == Read32(s, at)
  {
    hide Read16;
    Read16Within(s, a, b, at);
    Read16Within(s, a, b, at + 2);
  }

  // A local entry: its header of 30 bytes, and what follows it.
  datatype Entry = Entry(header: seq<Byte>, name: seq<Byte>, extra: seq<Byte>, data: seq<Byte>)

  /** How many bytes of data unzRepair copies: the compressed size, or the other one if that is 0; a size of
      2^31 or more is a negative int and copies nothing. */
  function DataSize(header: seq<Byte>): (n: nat)
    requires |header| == 30
  {
    var size := if Read32(header, 18) == 0 then Read32(header, 22) else Read32(header, 18);
    if size < 0x8000_0000 then size else 0
  }

  predicate IsEntry(e: Entry) {
    && |e.header| == 30 && Read32(e.header, 0) == LOCAL
    && |e.name| == Read16(e.header, 26) > 0 && |e.extra| == Read16(e.header, 28) && |e.data| == DataSize(e.header)
  }

  function EntryBytes(e: Entry): seq<Byte> { e.header + e.name + e.extra + e.data }

  function Locals(es: seq<Entry>): seq<Byte> {
    if es == [] then [] else Locals(es[..|es| - 1]) + EntryBytes(es[|es| - 1])
  }

  function DataBytes(es: seq<Entry>): nat {
    if es == [] then 0 else DataBytes(es[..|es| - 1]) + |es[|es| - 1].data|
  }

  /** The fixed part of a central directory record. */
  function CentralHeader(h: seq<Byte>, offset: nat): (r: seq<Byte>)
    requires |h| == 30
    ensures |r| == 46
  {
    Bytes32(CENTRAL) + Bytes16(Read16(h, 4)) + Bytes16(Read16(h, 4)) + Bytes16(Read16(h, 6)) + Bytes16(Read16(h, 8))
    + Bytes16(Read16(h, 10)) + Bytes16(Read16(h, 12)) + Bytes32(Read32(h, 14)) + Bytes32(Read32(h, 18))
      + Bytes32(Read32(h, 22))
    + Bytes16(Read16(h, 26)) + Bytes16(Read16(h, 28)) + Bytes16(0) + Bytes16(0) + Bytes16(0) + Bytes32(0)
      + Bytes32(offset)
  }

  function CentralRecord(e: Entry, offset: nat): seq<Byte>
    requires |e.header| == 30
  {
    CentralHeader(e.header, offset) + e.name + e.extra
  }

  predicate AllEntries(es: seq<Entry>) { forall i :: 0 <= i < |es| ==> IsEntry(es[i]) }

  /** One record for each entry, in order, with the place where the entry begins. */
  function Directory(es: seq<Entry>): seq<Byte>
    requires AllEntries(es)
  {
    if es == [] then [] else Directory(es[..|es| - 1]) + CentralRecord(es[|es| - 1], |Locals(es[..|es| - 1])|)
  }

  function EndRecord(entries: nat, size: nat, offset: nat): (r: seq<Byte>)
    ensures |r| == 22
  {
    var n := if entries > 0xffff then 0xffff else entries;
    Bytes32(END) + Bytes16(0) + Bytes16(0) + Bytes16(n) + Bytes16(n) + Bytes32(size) + Bytes32(offset) + Bytes16(0)
  }

  function Archive(es: seq<Entry>): seq<Byte>
    requires AllEntries(es)
  {
    Locals(es) + Directory(es) + EndRecord(|es|, |Directory(es)|, |Locals(es)|)
  }

  // ---- Reading the archive back ----

  /** The fields of a record. */
  lemma CentralFields(h: seq<Byte>, offset: Word32)
    requires |h| == 30
    ensures var r := CentralHeader(h, offset);
      && Read32(r, 0) == CENTRAL && Read32(r, 42) == offset
      && Read32(r, 16) == Read32(h, 14) && Read32(r, 20) == Read32(h, 18) && Read32(r, 24) == Read32(h, 22)
      && Read16(r, 28) == Read16(h, 26) && Read16(r, 30) == Read16(h, 28)
  {
    hide Read16, Read32, Bytes16, Bytes32;
    var r := CentralHeader(h, offset);
    var a := Bytes32(CENTRAL) + Bytes16(Read16(h, 4)) + Bytes16(Read16(h, 4)) + Bytes16(Read16(h, 6))
      + Bytes16(Read16(h, 8))
      + Bytes16(Read16(h, 10)) + Bytes16(Read16(h, 12));
    var z := Bytes16(0) + Bytes16(0) + Bytes16(0) + Bytes32(0);
    CentralStart(h, offset);
    hide CentralHeader;
    assert r == a + Bytes32(Read32(h, 14)) + Bytes32(Read32(h, 18)) + Bytes32(Read32(h, 22)) + Bytes16(Read16(h, 26))
      + Bytes16(Read16(h, 28)) + z + Bytes32(offset) by {
      CentralPieces(h, offset);
    }
    SizesIn(r, a, Read32(h, 14), Read32(h, 18), Read32(h, 22),
      Bytes16(Read16(h, 26)) + Bytes16(Read16(h, 28)) + z + Bytes32(offset));
    LengthsIn(r, a + Bytes32(Read32(h, 14)) + Bytes32(Read32(h, 18)) + Bytes32(Read32(h, 22)), Read16(h, 26),
      Read16(h, 28), z, offset);
  }

  lemma CentralPieces(h: seq<Byte>, offset: nat)
    requires |h| == 30
    ensures var a := Bytes32(CENTRAL) + Bytes16(Read16(h, 4)) + Bytes16(Read16(h, 4)) + Bytes16(Read16(h, 6))
      + Bytes16(Read16(h, 8))
        + Bytes16(Read16(h, 10)) + Bytes16(Read16(h, 12));
      CentralHeader(h, offset) == a + Bytes32(Read32(h, 14)) + Bytes32(Read32(h, 18)) + Bytes32(Read32(h, 22))
        + Bytes16(Read16(h, 26))
        + Bytes16(Read16(h, 28)) + (Bytes16(0) + Bytes16(0) + Bytes16(0) + Bytes32(0)) + Bytes32(offset)
  {
    hide Read16, Read32, Bytes16, Bytes32;
  }

  lemma SizesIn(r: seq<Byte>, a: seq<Byte>, x: Word32, y: Word32, z: Word32, rest: seq<Byte>)
    requires |a| == 16 && r == a + Bytes32(x) + Bytes32(y) + Bytes32(z) + rest
    ensures Read32(r, 16) == x && Read32(r, 20) == y && Read32(r, 24) == z
  {
    hide Read32, Bytes32;
    assert r == a + Bytes32(x) + (Bytes32(y) + Bytes32(z) + rest);
    Read32OfBytes(a, x, Bytes32(y) + Bytes32(z) + rest);
    assert r == (a + Bytes32(x)) + Bytes32(y) + (Bytes32(z) + rest);
    Read32OfBytes(a + Bytes32(x), y, Bytes32(z) + rest);
    Read32OfBytes(a + Bytes32(x) + Bytes32(y), z, rest);
  }

  lemma LengthsIn(r: seq<Byte>, a: seq<Byte>, n: int, x: int, z: seq<Byte>, offset: Word32)
    requires |a| == 28 && |z| == 10 && 0 <= n <= 0xffff && 0 <= x <= 0xffff
      && r == a + Bytes16(n) + Bytes16(x) + z + Bytes32(offset)
    ensures Read16(r, 28) == n && Read16(r, 30) == x && Read32(r, 42) == offset
  {
    hide Read16, Read32, Bytes32, Bytes16;
    assert r == a + Bytes16(n) + (Bytes16(x) + z + Bytes32(offset));
    Read16OfBytes(a, n, Bytes16(x) + z + Bytes32(offset));
    assert r == (a + Bytes16(n)) + Bytes16(x) + (z + Bytes32(offset));
    Read16OfBytes(a + Bytes16(n), x, z + Bytes32(offset));
    assert r == (a + Bytes16(n) + Bytes16(x) + z) + Bytes32(offset) + [];
    Read32OfBytes(a + Bytes16(n) + Bytes16(x) + z, offset, []);
  }

  lemma CentralStart(h: seq<Byte>, offset: nat)
    requires |h| == 30
    ensures Read32(CentralHeader(h, offset), 0) == CENTRAL
  {
    hide Read16, Bytes16;
    Read32OfBytes([], CENTRAL, CentralHeader(h, offset)[4..]);
    assert CentralHeader(h, offset) == [] + Bytes32(CENTRAL) + CentralHeader(h, offset)[4..];
  }

  lemma {:induction false} LocalAt(es: seq<Entry>, k: nat) returns (rest: seq<Byte>)
    requires k < |es|
    ensures Locals(es) == Locals(es[..k]) + EntryBytes(es[k]) + rest
  {
    var n := |es| - 1;
    if k == n {
      rest := [];
    } else {
      rest := LocalAt(es[..n], k);
      assert es[..n][..k] == es[..k];
      rest := rest + EntryBytes(es[n]);
    }
  }

  lemma {:induction false} RecordAt(es: seq<Entry>, k: nat) returns (rest: seq<Byte>)
    requires AllEntries(es) && k < |es|
    ensures Directory(es) == Directory(es[..k]) + CentralRecord(es[k], |Locals(es[..k])|) + rest
  {
    hide CentralRecord, Locals, Directory;
    var n := |es| - 1;
    DirectorySnoc(es);
    if k == n {
      rest := [];
    } else {
      var more := RecordAt(es[..n], k);
      assert es[..n][..k] == es[..k];
      rest := more + CentralRecord(es[n], |Locals(es[..n])|);
    }
  }

  lemma DirectorySnoc(es: seq<Entry>)
    requires AllEntries(es) && es != []
    ensures var n := |es| - 1; Directory(es) == Directory(es[..n]) + CentralRecord(es[n], |Locals(es[..n])|)
  {
  }

  lemma HeaderAt(s: seq<Byte>, before: seq<Byte>, h: seq<Byte>, after: seq<Byte>, at: nat)
    requires s == before + h + after && at == |before|
    ensures at + |h| <= |s| && s[at..at + |h|] == h
    ensures forall i :: 0 <= i <= |h| - 4 ==> Read32(s, at + i) == Read32(h, i)
    ensures forall i :: 0 <= i <= |h| - 2 ==> Read16(s, at + i) == Read16(h, i)
  {
    hide Read16, Read32;
    forall i | 0 <= i <= |h| - 4 ensures Read32(s, at + i) == Read32(h, i) {
      Read32Within(h, before, after, i);
    }
    forall i | 0 <= i <= |h| - 2 ensures Read16(s, at + i) == Read16(h, i) {
      Read16Within(h, before, after, i);
    }
  }

  // In the archive a, the record at p describes the local entry that begins where it says.
  ghost predicate Describes(a: seq<Byte>, p: nat) {
    && p + 46 <= |a| && Read32(a, p) == CENTRAL
    && var o, n, x := Read32(a, p + 42), Read16(a, p + 28), Read16(a, p + 30);
      && p + 46 + n + x <= |a| && o + 30 + n + x <= |a| && Read32(a, o) == LOCAL
      && Read32(a, p + 16) == Read32(a, o + 14) && Read32(a, p + 20) == Read32(a, o + 18)
      && Read32(a, p + 24) == Read32(a, o + 22)
      && n == Read16(a, o + 26) && x == Read16(a, o + 28)
      && a[p + 46..p + 46 + n] == a[o + 30..o + 30 + n]
      && a[p + 46 + n..p + 46 + n + x] == a[o + 30 + n..o + 30 + n + x]
  }

  /** Record k of the directory describes entry k: its offset is the place of a local header with the same name,
      extra field, CRC and sizes. */
  lemma RecordDescribesEntry(es: seq<Entry>, k: nat)
    requires AllEntries(es) && k < |es| && |Archive(es)| < 0x1_0000_0000
    ensures var p, o := |Locals(es)| + |Directory(es[..k])|, |Locals(es[..k])|;
      Describes(Archive(es), p) && Read32(Archive(es), p + 42) == o
  {
    hide Read16, Read32, Locals, Directory, EndRecord, CentralHeader, Describes;
    var a, e, o := Archive(es), es[k], |Locals(es[..k])|;
    assert IsEntry(e);
    var moreLocals := LocalAt(es, k);
    var moreRecords := RecordAt(es, k);
    var r := CentralHeader(e.header, o);
    var end := EndRecord(|es|, |Directory(es)|, |Locals(es)|);
    var before := Locals(es) + Directory(es[..k]);
    assert a == before + r + (e.name + e.extra + (moreRecords + end));
    assert a == Locals(es[..k]) + e.header + (e.name + e.extra + (e.data + moreLocals + Directory(es) + end));
    DescribesWhen(a, before, moreRecords + end, Locals(es[..k]), e.data + moreLocals + Directory(es) + end, e);
  }

  lemma DescribesWhen(a: seq<Byte>, before: seq<Byte>, after: seq<Byte>, before': seq<Byte>, after': seq<Byte>,
    e: Entry)
    requires IsEntry(e) && |before'| < 0x1_0000_0000
    requires a == before + CentralHeader(e.header, |before'|) + (e.name + e.extra + after)
    requires a == before' + e.header + (e.name + e.extra + after')
    ensures Describes(a, |before|) && Read32(a, |before| + 42) == |before'|
  {
    hide Read16, Read32, CentralHeader;
    var h, r := e.header, CentralHeader(e.header, |before'|);
    HeadersMatch(a, before, before', e.name + e.extra + after, e.name + e.extra + after', h);
    NamesAt(a, before + r, e, after, |before| + 46);
    NamesAt(a, before' + h, e, after', |before'| + 30);
  }

  lemma HeadersMatch(a: seq<Byte>, before: seq<Byte>, before': seq<Byte>, tail: seq<Byte>, tail': seq<Byte>,
    h: seq<Byte>)
    requires |h| == 30 && Read32(h, 0) == LOCAL && |before'| < 0x1_0000_0000
    requires a == before + CentralHeader(h, |before'|) + tail
    requires a == before' + h + tail'
    ensures var p, o := |before|, |before'|;
      && p + 46 <= |a| && o + 30 <= |a| && Read32(a, p) == CENTRAL && Read32(a, o) == LOCAL && Read32(a, p + 42) == o
      && Read32(a, p + 16) == Read32(a, o + 14) && Read32(a, p + 20) == Read32(a, o + 18)
      && Read32(a, p + 24) == Read32(a, o + 22)
      && Read16(a, p + 28) == Read16(a, o + 26) == Read16(h, 26)
      && Read16(a, p + 30) == Read16(a, o + 28) == Read16(h, 28)
  {
    hide Read16, Read32, CentralHeader;
    var r, p, o := CentralHeader(h, |before'|), |before|, |before'|;
    CentralFields(h, |before'|);
    HeaderAt(a, before, r, tail, p);
    HeaderAt(a, before', h, tail', o);
    assert Read32(a, p + 0) == Read32(r, 0) && Read32(a, o + 0) == Read32(h, 0);
  }

  lemma NamesAt(a: seq<Byte>, before: seq<Byte>, e: Entry, after: seq<Byte>, at: nat)
    requires a == before + (e.name + e.extra + after) && at == |before|
    ensures at + |e.name| + |e.extra| <= |a|
    ensures a[at..at + |e.name|] == e.name && a[at + |e.name|..at + |e.name| + |e.extra|] == e.extra
  {
  }

  /** The end record delimits the directory and counts its records. */
  lemma EndRecordDelimits(es: seq<Entry>)
    requires AllEntries(es) && |Archive(es)| < 0x1_0000_0000
    ensures var a := Archive(es);
      var p := |a| - 22;
      && p >= 0 && Read32(a, p) == END
      && Read32(a, p + 16) == |Locals(es)| && Read32(a, p + 16) + Read32(a, p + 12) == p
      && a[Read32(a, p + 16)..p] == Directory(es)
      && Read16(a, p + 10) == (if |es| > 0xffff then 0xffff else |es|) && Read16(a, p + 8) == Read16(a, p + 10)
  {
    hide Read16, Read32, Locals, Directory, EndRecord;
    var a, end := Archive(es), EndRecord(|es|, |Directory(es)|, |Locals(es)|);
    EndFields(|es|, |Directory(es)|, |Locals(es)|);
    assert a == (Locals(es) + Directory(es)) + end + [];
    HeaderAt(a, Locals(es) + Directory(es), end, [], |a| - 22);
  }

  lemma EndFields(entries: nat, size: Word32, offset: Word32)
    ensures var r, n := EndRecord(entries, size, offset), if entries > 0xffff then 0xffff else entries;
      && Read32(r, 0) == END && Read32(r, 12) == size && Read32(r, 16) == offset && Read16(r, 8) == n
      && Read16(r, 10) == n
  {
    hide Read16, Read32, Bytes16, Bytes32;
    var r, n := EndRecord(entries, size, offset), if entries > 0xffff then 0xffff else entries;
    var a, c, o, z := Bytes32(END) + Bytes16(0) + Bytes16(0), Bytes16(n), Bytes32(offset), Bytes16(0);
    assert r == [] + Bytes32(END) + (Bytes16(0) + Bytes16(0) + c + c + Bytes32(size) + o + z);
    Read32OfBytes([], END, Bytes16(0) + Bytes16(0) + c + c + Bytes32(size) + o + z);
    assert r == a + c + (c + Bytes32(size) + o + z);
    Read16OfBytes(a, n, c + Bytes32(size) + o + z);
    assert r == (a + c) + c + (Bytes32(size) + o + z);
    Read16OfBytes(a + c, n, Bytes32(size) + o + z);
    assert r == (a + c + c) + Bytes32(size) + (o + z);
    Read32OfBytes(a + c + c, size, o + z);
    assert r == (a + c + c + Bytes32(size)) + o + z;
    Read32OfBytes(a + c + c + Bytes32(size), offset, z);
  }

  // ---- Scanning for local entries ----

  datatype Err = ZOk | ZErrno | ZStreamError

  datatype Scan = Scan(entries: seq<Entry>, err: Err)

  /** Whether another local header begins here. */
  predicate AtLocal(s: seq<Byte>) { |s| >= 30 && Read32(s, 0) == LOCAL }

  function NameSize(s: seq<Byte>): nat requires AtLocal(s) { Read16(s, 26) }

  function ExtraSize(s: seq<Byte>): nat requires AtLocal(s) { Read16(s, 28) }

  function EntrySize(s: seq<Byte>): nat requires AtLocal(s) { 30 + NameSize(s) + ExtraSize(s) + DataSize(s[..30]) }

  function EntryErr(s: seq<Byte>): Err
    requires AtLocal(s)
  {
    if NameSize(s) == 0 then ZStreamError else if |s| < EntrySize(s) then ZErrno else ZOk
  }

  function FirstEntry(s: seq<Byte>): (e: Entry)
    requires AtLocal(s) && EntryErr(s) == ZOk
    ensures EntryBytes(e) <= s && |EntryBytes(e)| == EntrySize(s) && IsEntry(e)
  {
    var n, x := NameSize(s), ExtraSize(s);
    assert Read16(s[..30], 26) == n && Read16(s[..30], 28) == x && Read32(s[..30], 0) == LOCAL;
    var e := Entry(s[..30], s[30..30 + n], s[30 + n..30 + n + x], s[30 + n + x..EntrySize(s)]);
    assert EntryBytes(e) == s[..EntrySize(s)];
    e
  }

  /** The local entries at the beginning, up to something else, the end, or an entry that is not whole. */
  function ScanZip(s: seq<Byte>): (r: Scan)
    ensures AllEntries(r.entries)
    decreases |s|
  {
    if !AtLocal(s) then Scan([], ZOk)
    else if EntryErr(s) != ZOk then Scan([], EntryErr(s))
    else
      var e := FirstEntry(s);
      var r := ScanZip(s[EntrySize(s)..]);
      Scan([e] + r.entries, r.err)
  }

  lemma {:induction false} LocalsCons(e: Entry, es: seq<Entry>)
    ensures Locals([e] + es) == EntryBytes(e) + Locals(es)
    ensures DataBytes([e] + es) == |e.data| + DataBytes(es)
  {
    var n := |es|;
    if n == 0 {
      assert [e] + es == [e] && [e][..0] == [];
    } else {
      assert ([e] + es)[..n] == [e] + es[..n - 1];
      LocalsCons(e, es[..n - 1]);
    }
  }

  /** What is found is what is there: the entries are the beginning of the file, byte for byte. */
  lemma {:induction false} ScanIsVerbatim(s: seq<Byte>)
    ensures Locals(ScanZip(s).entries) <= s
    ensures ScanZip(s).err == ZOk ==> !AtLocal(s[|Locals(ScanZip(s).entries)|..])
    decreases |s|
  {
    if AtLocal(s) && EntryErr(s) == ZOk {
      hide AtLocal, EntryErr, FirstEntry, EntrySize, EntryBytes, Locals, IsEntry, Read32, Read16, DataSize;
      var n, e := EntrySize(s), FirstEntry(s);
      FirstIsVerbatim(s);
      ScanIsVerbatim(s[n..]);
      var rest := ScanZip(s[n..]).entries;
      LocalsCons(e, rest);
      PrefixOfTail(s, n, Locals(rest));
    } else {
      assert s[0..] == s;
    }
  }

  lemma FirstIsVerbatim(s: seq<Byte>)
    requires AtLocal(s) && EntryErr(s) == ZOk
    ensures 0 < EntrySize(s) <= |s| && EntryBytes(FirstEntry(s)) == s[..EntrySize(s)]
  {
    hide EntryBytes, IsEntry, Read32, Read16, DataSize, FirstEntry;
  }

  lemma FourPieces(s: seq<Byte>, a: seq<Byte>, b: seq<Byte>, c: seq<Byte>, d: seq<Byte>, rest: seq<Byte>)
    requires s == a + b + c + d + rest
    ensures var i, j, k := |a|, |a| + |b|, |a| + |b| + |c|;
      k + |d| <= |s| && s[..i] == a && s[i..j] == b && s[j..k] == c && s[k..k + |d|] == d && s[k + |d|..] == rest
  {
  }

  lemma HeaderFields(s: seq<Byte>, h: seq<Byte>)
    requires |h| == 30 && h <= s
    ensures Read32(s, 0) == Read32(h, 0) && Read16(s, 26) == Read16(h, 26) && Read16(s, 28) == Read16(h, 28)
  {
  }

  lemma FirstOfEntry(e: Entry, rest: seq<Byte>)
    requires IsEntry(e)
    ensures var s := EntryBytes(e) + rest;
      AtLocal(s) && EntryErr(s) == ZOk && FirstEntry(s) == e && s[EntrySize(s)..] == rest
  {
    hide Read16, Read32, DataSize;
    var s := EntryBytes(e) + rest;
    FourPieces(s, e.header, e.name, e.extra, e.data, rest);
    HeaderFields(s, e.header);
    assert AtLocal(s) && NameSize(s) == |e.name| && ExtraSize(s) == |e.extra| && DataSize(s[..30]) == |e.data|;
    assert EntryErr(s) == ZOk;
  }

  lemma {:induction false} ScanLocals(es: seq<Entry>, tail: seq<Byte>)
    requires AllEntries(es) && !AtLocal(tail)
    ensures ScanZip(Locals(es) + tail) == Scan(es, ZOk)
  {
    hide AtLocal, EntryErr, FirstEntry, EntrySize, EntryBytes, IsEntry;
    if es == [] {
      assert Locals(es) + tail == tail;
    } else {
      var e, rest := es[0], es[1..];
      assert es == [e] + rest;
      LocalsCons(e, rest);
      assert Locals(es) + tail == EntryBytes(e) + (Locals(rest) + tail);
      FirstOfEntry(e, Locals(rest) + tail);
      ScanLocals(rest, tail);
    }
  }

  /** The directory and the end record do not look like a local entry. */
  lemma DirectoryIsNoLocal(es: seq<Entry>)
    requires AllEntries(es)
    ensures !AtLocal(Directory(es) + EndRecord(|es|, |Directory(es)|, |Locals(es)|))
  {
    hide Read16, Locals, Directory, Bytes32;
    var end := EndRecord(|es|, |Directory(es)|, |Locals(es)|);
    if es == [] {
      assert Directory(es) == [] by {
        NoDirectory();
      }
      assert Directory(es) + end == end;
    } else {
      var rest := RecordAt(es, 0);
      assert es[..0] == [];
      NoDirectory();
      var r := CentralHeader(es[0].header, |Locals([])|);
      assert IsEntry(es[0]);
      assert Directory(es) + end == [] + r + (es[0].name + es[0].extra + rest + end);
      CentralStart(es[0].header, |Locals([])|);
      Read32Within(r, [], es[0].name + es[0].extra + rest + end, 0);
    }
  }

  lemma NoDirectory()
    ensures Directory([]) == []
  {
  }

  // ---- Local entries byte by byte ----

  /** The number that the bytes from i on make, the lowest first. */
  function Low16(s: seq<Byte>, i: nat): nat
    requires i + 2 <= |s|
  {
    var a: int, b: int := s[i], s[i + 1];
    a + 0x100 * b
  }

  function Low32(s: seq<Byte>, i: nat): nat
    requires i + 4 <= |s|
  {
    Low16(s, i) + 0x1_0000 * Low16(s, i + 2)
  }

  lemma NumbersRead(s: seq<Byte>, i: nat)
    ensures i + 2 <= |s| ==> Read16(s, i) == Low16(s, i)
    ensures i + 4 <= |s| ==> Read32(s, i) == Low32(s, i)
  {
  }

  /** "PK", 3, 4: what a local header begins with. */
  predicate BeginsLocal(s: seq<Byte>) {
    |s| >= 30 && s[0] == 0x50 && s[1] == 0x4B && s[2] == 3 && s[3] == 4
  }

  lemma LocalMark(s: seq<Byte>)
    ensures AtLocal(s) <==> BeginsLocal(s)
  {
    if |s| >= 30 {
      NumbersRead(s, 0);
      hide Read32;
      MarkBytes(s[0], s[1], s[2], s[3]);
    }
  }

  lemma MarkBytes(a: int, b: int, c: int, d: int)
    requires 0 <= a < 0x100 && 0 <= b < 0x100 && 0 <= c < 0x100 && 0 <= d < 0x100
    ensures a + 0x100 * b + 0x1_0000 * (c + 0x100 * d) == LOCAL <==> a == 0x50 && b == 0x4B && c == 3 && d == 4
  {
  }

  /** An entry as APPNOTE.TXT section 4.3.7 lays it out: name and extra field as long as bytes 26 to 29 say, and the
      data as long as the compressed size says; where that is 0, as the uncompressed size does. */
  predicate LaidOut(e: Entry) {
    && |e.header| == 30 && BeginsLocal(e.header)
    && |e.name| == Low16(e.header, 26) > 0 && |e.extra| == Low16(e.header, 28)
    && (0 < Low32(e.header, 18) < 0x8000_0000 ==> |e.data| == Low32(e.header, 18))
    && (Low32(e.header, 18) == 0 && Low32(e.header, 22) < 0x8000_0000 ==> |e.data| == Low32(e.header, 22))
    && (Low32(e.header, 18) >= 0x8000_0000 || (Low32(e.header, 18) == 0 && Low32(e.header, 22) >= 0x8000_0000)
      ==> e.data == [])
  }

  lemma LaidOutIsEntry(e: Entry)
    ensures IsEntry(e) <==> LaidOut(e)
  {
    if |e.header| == 30 {
      LocalMark(e.header);
      NumbersRead(e.header, 0);
      NumbersRead(e.header, 18);
      NumbersRead(e.header, 22);
      NumbersRead(e.header, 26);
      NumbersRead(e.header, 28);
      hide Read16, Read32, Low16, Low32, BeginsLocal;
    }
  }

  /** So every entry that is recovered is laid out like this. */
  lemma RecoveredAreLaidOut(s: seq<Byte>, i: nat)
    requires i < |ScanZip(s).entries|
    ensures LaidOut(ScanZip(s).entries[i])
  {
    LaidOutIsEntry(ScanZip(s).entries[i]);
  }

  // A file that begins with these entries, in order, and goes on with something that is no local header.
  ghost predicate HoldsEntries(s: seq<Byte>, es: seq<Entry>) {
    && (forall i :: 0 <= i < |es| ==> LaidOut(es[i]))
    && Locals(es) <= s && !BeginsLocal(s[|Locals(es)|..])
  }

  /** And of a file so laid out all entries are recovered, and nothing else. */
  lemma AllRecovered(s: seq<Byte>, es: seq<Entry>)
    requires HoldsEntries(s, es)
    ensures ScanZip(s) == Scan(es, ZOk)
  {
    hide LaidOut, IsEntry, BeginsLocal, AtLocal, ScanZip, Locals;
    forall i | 0 <= i < |es| ensures IsEntry(es[i]) {
      LaidOutIsEntry(es[i]);
    }
    var tail := s[|Locals(es)|..];
    LocalMark(tail);
    ScanLocals(es, tail);
    assert s == Locals(es) + tail;
  }

  /** An entry without a name, or one that is cut off, ends the scan with an error. */
  lemma BrokenEntry(s: seq<Byte>)
    requires BeginsLocal(s)
    ensures Low16(s, 26) == 0 ==> ScanZip(s) == Scan([], ZStreamError)
    ensures Low16(s, 26) > 0 && |s| < 30 + Low16(s, 26) + Low16(s, 28) + DataSize(s[..30])
      ==> ScanZip(s) == Scan([], ZErrno)
  {
    LocalMark(s);
    NumbersRead(s, 26);
    NumbersRead(s, 28);
    hide Read16, Read32, Low16, DataSize;
  }

  // ---- Directory records byte by byte ----

  /** APPNOTE.TXT section 4.3.12: a record repeats bytes 4 to 29 of the local header, the first two of them twice, and
      ends with the place of that header. */
  lemma RecordBytes(h: seq<Byte>, offset: Word32)
    requires |h| == 30
    ensures var r := CentralHeader(h, offset);
      && r[..4] == [0x50, 0x4B, 1, 2] && r[4..6] == h[4..6] && r[6..16] == h[4..14] && r[16..28] == h[14..26]
      && r[28..32] == h[26..30] && r[32..42] == seq(10, _ => 0) && Low32(r, 42) == offset
  {
    hide Read16, Read32, Bytes16, Bytes32, Low32, CentralHeader;
    var r := CentralHeader(h, offset);
    CentralFields(h, offset);
    NumbersRead(r, 42);
    RecordIs(h, offset);
    MarksAndZeros();
    Joined(h);
    RecordPieces(r, h, Bytes32(offset));
  }

  lemma MarksAndZeros()
    ensures Bytes32(CENTRAL) == [0x50, 0x4B, 1, 2] && Bytes32(END) == [0x50, 0x4B, 5, 6]
    ensures Bytes32(0) == [0, 0, 0, 0] && Bytes16(0) == [0, 0]
  {
  }

  lemma RecordIs(h: seq<Byte>, offset: Word32)
    requires |h| == 30
    ensures CentralHeader(h, offset) ==
      Bytes32(CENTRAL) + h[4..6] + h[4..6] + h[6..8] + h[8..10] + h[10..12] + h[12..14] + h[14..18] + h[18..22]
        + h[22..26]
      + h[26..28] + h[28..30] + Bytes16(0) + Bytes16(0) + Bytes16(0) + Bytes32(0) + Bytes32(offset)
  {
    hide Read16, Read32, Bytes16, Bytes32;
    Copied16(h, 4);
    Copied16(h, 6);
    Copied16(h, 8);
    Copied16(h, 10);
    Copied16(h, 12);
    Copied32(h, 14);
    Copied32(h, 18);
    Copied32(h, 22);
    Copied16(h, 26);
    Copied16(h, 28);
  }

  /** Neighbouring pieces of a header. */
  lemma Joined(h: seq<Byte>)
    requires |h| == 30
    ensures h[4..6] + h[6..8] + h[8..10] + h[10..12] + h[12..14] == h[4..14]
    ensures h[14..18] + h[18..22] + h[22..26] == h[14..26] && h[26..28] + h[28..30] == h[26..30]
  {
  }

  lemma RecordPieces(r: seq<Byte>, h: seq<Byte>, place: seq<Byte>)
    requires |h| == 30 && |place| == 4
    requires r == [0x50, 0x4B, 1, 2] + h[4..6] + h[4..6] + h[6..8] + h[8..10] + h[10..12] + h[12..14] + h[14..18]
      + h[18..22]
      + h[22..26] + h[26..28] + h[28..30] + [0, 0] + [0, 0] + [0, 0] + [0, 0, 0, 0] + place
    ensures r[..4] == [0x50, 0x4B, 1, 2] && r[4..6] == h[4..6] && r[6..16] == h[4..14] && r[16..28] == h[14..26]
      && r[28..32] == h[26..30] && r[32..42] == seq(10, _ => 0)
  {
    Joined(h);
    var zeros: seq<Byte> := seq(10, _ => 0);
    assert [0, 0] + [0, 0] + [0, 0] + [0, 0, 0, 0] == zeros;
    var whole := [0x50, 0x4B, 1, 2] + h[4..6] + h[4..14] + h[14..26] + h[26..30] + zeros + place;
    assert r == whole by {
      Regrouped(r, h, zeros, place);
    }
    SevenPieces(whole, [0x50, 0x4B, 1, 2], h[4..6], h[4..14], h[14..26], h[26..30], zeros, place);
  }

  lemma Regrouped(r: seq<Byte>, h: seq<Byte>, zeros: seq<Byte>, place: seq<Byte>)
    requires |h| == 30 && zeros == [0, 0] + [0, 0] + [0, 0] + [0, 0, 0, 0]
    requires r == [0x50, 0x4B, 1, 2] + h[4..6] + h[4..6] + h[6..8] + h[8..10] + h[10..12] + h[12..14] + h[14..18]
      + h[18..22]
      + h[22..26] + h[26..28] + h[28..30] + [0, 0] + [0, 0] + [0, 0] + [0, 0, 0, 0] + place
    ensures r == [0x50, 0x4B, 1, 2] + h[4..6] + h[4..14] + h[14..26] + h[26..30] + zeros + place
  {
  }

  lemma SevenPieces(s: seq<Byte>, a: seq<Byte>, b: seq<Byte>, c: seq<Byte>, d: seq<Byte>, e: seq<Byte>, f: seq<Byte>,
    g: seq<Byte>)
    requires s == a + b + c + d + e + f + g
    ensures var i, j, k, l, m := |a|, |a| + |b|, |a| + |b| + |c|, |a| + |b| + |c| + |d|, |a| + |b| + |c| + |d| + |e|;
      m + |f| <= |s| && s[..i] == a && s[i..j] == b && s[j..k] == c && s[k..l] == d && s[l..m] == e
        && s[m..m + |f|] == f
  {
  }

  lemma Copied16(s: seq<Byte>, i: nat)
    requires i + 2 <= |s|
    ensures Bytes16(Read16(s, i)) == s[i..i + 2]
  {
    var a, b := s[i], s[i + 1];
    assert s[i..i + 2] == [a, b];
  }

  lemma Copied32(s: seq<Byte>, i: nat)
    requires i + 4 <= |s|
    ensures Bytes32(Read32(s, i)) == s[i..i + 4]
  {
    Copied16(s, i);
    Copied16(s, i + 2);
    HalvesOf32(s, i);
    hide Bytes16, Read16, Bytes32, Read32;
    assert s[i..i + 4] == s[i..i + 2] + s[i + 2..i + 4];
  }

  lemma HalvesOf32(s: seq<Byte>, i: nat)
    requires i + 4 <= |s|
    ensures Bytes32(Read32(s, i)) == Bytes16(Read16(s, i)) + Bytes16(Read16(s, i + 2))
  {
    hide Bytes16, Read16;
  }

  /** Section 4.3.16: the end record. */
  lemma EndBytes(entries: nat, size: Word32, offset: Word32)
    ensures var r, n := EndRecord(entries, size, offset), if entries > 0xffff then 0xffff else entries;
      && r[..8] == [0x50, 0x4B, 5, 6, 0, 0, 0, 0] && Low16(r, 8) == n && Low16(r, 10) == n && Low32(r, 12) == size
      && Low32(r, 16) == offset && r[20..] == [0, 0]
  {
    var r := EndRecord(entries, size, offset);
    EndFields(entries, size, offset);
    NumbersRead(r, 8);
    NumbersRead(r, 10);
    NumbersRead(r, 12);
    NumbersRead(r, 16);
    hide Read16, Read32, Low16, Low32, Bytes16, Bytes32;
    MarksAndZeros();
  }

  /** Repairing a repaired archive finds the same entries, so it gives the same archive again. */
  lemma RepairIsIdempotent(s: seq<Byte>)
    requires ScanZip(s).err == ZOk
    ensures ScanZip(Archive(ScanZip(s).entries)) == ScanZip(s)
  {
    hide AtLocal, Locals, Directory, EndRecord;
    var es := ScanZip(s).entries;
    hide ScanZip;
    var tail := Directory(es) + EndRecord(|es|, |Directory(es)|, |Locals(es)|);
    DirectoryIsNoLocal(es);
    ScanLocals(es, tail);
    assert Archive(es) == Locals(es) + tail;
  }
}

// unzRepair itself. Files are sequences of bytes; writing never fails.
module ZipRepair {
  import opened Bytes
  import opened ZipFormat

  method Write16(buf: array<Byte>, at: nat, n: nat)
    requires at + 2 <= buf.Length
    modifies buf
    ensures buf[..at + 2] == old(buf[..at]) + Bytes16(n)
  {
    buf[at] := n % 0x100;
    buf[at + 1] := n / 0x100 % 0x100;
  }

  method Write32(buf: array<Byte>, at: nat, n: nat)
    requires at + 4 <= buf.Length
    modifies buf
    ensures buf[..at + 4] == old(buf[..at]) + Bytes32(n)
  {
    hide Bytes16;
    Write16(buf, at, n % 0x1_0000);
    Write16(buf, at + 2, n / 0x1_0000);
  }

  /** The fixed part of a central directory record, field by field. */
  method WriteCentralHeader(h: seq<Byte>, currentOffset: nat) returns (r: seq<Byte>)
    requires |h| == 30
    ensures r == CentralHeader(h, currentOffset)
  {
    hide Bytes16, Bytes32, Read16, Read32;
    var header := new Byte[46];
    assert header[..0] == [];
    Write32(header, 0, CENTRAL);
    assert header[..4] == Bytes32(CENTRAL);
    Write16(header, 4, Read16(h, 4));
    Write16(header, 6, Read16(h, 4));
    Write16(header, 8, Read16(h, 6));
    Write16(header, 10, Read16(h, 8));
    Write16(header, 12, Read16(h, 10));
    Write16(header, 14, Read16(h, 12));
    Write32(header, 16, Read32(h, 14));
    Write32(header, 20, Read32(h, 18));
    Write32(header, 24, Read32(h, 22));
    Write16(header, 28, Read16(h, 26));
    Write16(header, 30, Read16(h, 28));
    Write16(header, 32, 0);
    Write16(header, 34, 0);
    Write16(header, 36, 0);
    Write32(header, 38, 0);
    Write32(header, 42, currentOffset);
    r := header[..46];
  }

  method WriteEndRecord(entries: nat, offsetCD: nat, offset: nat) returns (r: seq<Byte>)
    ensures r == EndRecord(entries, offsetCD, offset)
  {
    hide Bytes16, Bytes32;
    var entriesZip := entries;
    if entriesZip > 0xffff {
      entriesZip := 0xffff;
    }
    var header := new Byte[22];
    assert header[..0] == [];
    Write32(header, 0, END);
    assert header[..4] == Bytes32(END);
    Write16(header, 4, 0);
    Write16(header, 6, 0);
    Write16(header, 8, entriesZip);
    Write16(header, 10, entriesZip);
    Write32(header, 12, offsetCD);
    Write32(header, 16, offset);
    Write16(header, 20, 0);
    r := header[..22];
  }

  // A file that is read from the beginning to the end.
  class InFile {
    const contents: seq<Byte>
    var pos: nat

    ghost predicate Valid() reads this { pos <= |contents| }

    ghost function Rest(): seq<Byte> reads this requires Valid() { contents[pos..] }

    constructor (s: seq<Byte>)
      ensures Valid() && Rest() == s && contents == s
    {
      contents, pos := s, 0;
    }

    /** fread: n bytes, or fewer at the end. */
    method Read(n: nat) returns (data: seq<Byte>)
      requires Valid()
      modifies this
      ensures Valid() && data == (if n <= |old(Rest())| then old(Rest())[..n] else old(Rest()))
        && Rest() == old(Rest())[|data|..]
    {
      var end := if pos + n <= |contents| then pos + n else |contents|;
      data := contents[pos..end];
      pos := end;
    }
  }

  /** The next n bytes of s, of which `at` have been read, or nothing when there are not so many. */
  method ReadField(zip: InFile, n: nat, ghost s: seq<Byte>, ghost at: nat) returns (data: seq<Byte>)
    requires zip.Valid() && at <= |s| && zip.Rest() == s[at..]
    modifies zip
    ensures zip.Valid() && (|data| == n <==> at + n <= |s|)
    ensures |data| == n ==> data == s[at..at + n] && zip.Rest() == s[at + n..]
  {
    data := zip.Read(n);
    if |data| == n {
      TailPieces(s, at, n);
    }
  }

  lemma HeaderSizes(s: seq<Byte>, header: seq<Byte>)
    requires AtLocal(s) && header == s[..30]
    ensures Read16(header, 26) == NameSize(s) && Read16(header, 28) == ExtraSize(s)
  {
  }

  /** The name, the extra field and the data behind a local header, with the errors in the order of the checks. */
  method ReadEntry(zip: InFile, header: seq<Byte>, ghost s: seq<Byte>) returns (err: Err, e: Entry)
    requires zip.Valid() && AtLocal(s) && header == s[..30] && zip.Rest() == s[30..]
    modifies zip
    ensures zip.Valid() && err == EntryErr(s)
    ensures err == ZOk ==> e == FirstEntry(s) && e.header == header && zip.Rest() == s[EntrySize(s)..]
  {
    HeaderSizes(s, header);
    hide Read16, Read32, DataSize;
    var fnsize: nat, extsize: nat, dataSize := Read16(header, 26), Read16(header, 28), DataSize(header);
    e := Entry(header, [], [], []);
    if fnsize == 0 {
      return ZStreamError, e;
    }
    var filename := ReadField(zip, fnsize, s, 30);
    if |filename| != fnsize {
      return ZErrno, e;
    }
    var extra := ReadField(zip, extsize, s, 30 + fnsize);
    if |extra| != extsize {
      return ZErrno, e;
    }
    var data := ReadField(zip, dataSize, s, 30 + fnsize + extsize);
    if |data| != dataSize {
      return ZErrno, e;
    }
    return ZOk, Entry(header, filename, extra, data);
  }

  /** The final merge: the directory is copied behind the local entries, 8192 bytes at a time. */
  method Merge(out0: seq<Byte>, fpOutCD: InFile) returns (out: seq<Byte>)
    requires fpOutCD.Valid()
    modifies fpOutCD
    ensures out == out0 + old(fpOutCD.Rest())
  {
    ghost var all := fpOutCD.Rest();
    out := out0;
    var buffer := fpOutCD.Read(8192);
    while |buffer| > 0
      invariant fpOutCD.Valid() && out + buffer + fpOutCD.Rest() == out0 + all
      invariant |buffer| == 0 ==> fpOutCD.Rest() == []
      decreases |fpOutCD.Rest()| + |buffer|
    {
      out := out + buffer;
      ghost var rest := fpOutCD.Rest();
      buffer := fpOutCD.Read(8192);
      assert rest == buffer + fpOutCD.Rest();
    }
  }

  /** unzRepair: the local entries found at the beginning of the file, verbatim, and a new directory for them. */
  method UnzRepair(zip: seq<Byte>) returns (err: Err, fpOut: seq<Byte>, nRecovered: nat, bytesRecovered: nat)
    requires |zip| < 0x8000_0000
    ensures var r := ScanZip(zip);
      && err == r.err
      && (err == ZOk ==>
          fpOut == Archive(r.entries) && nRecovered == |r.entries| && bytesRecovered == DataBytes(r.entries))
    // All entries of a file that is laid out as a ZIP file are recovered
    ensures forall es :: HoldsEntries(zip, es) ==> err == ZOk && nRecovered == |es| && Locals(es) <= fpOut
  {
    hide ScanZip, AtLocal, EntryErr, FirstEntry, EntrySize, Recovered, Read32, IsEntry, HoldsEntries, Archive, Locals;
    WholeArchives(zip);
    var fpZip := new InFile(zip);
    var entries: nat, totalBytes: nat, offset: nat, offsetCD: nat := 0, 0, 0, 0;
    var fpOutCD: seq<Byte> := [];
    fpOut, err := [], ZOk;
    ghost var es: seq<Entry> := [];
    NothingYet(zip);
    while true
      invariant fpZip.Valid() && err == ZOk && Recovered(es, fpOut, fpOutCD, entries, totalBytes)
      invariant offset == |fpOut| && offsetCD == |fpOutCD|
      invariant ScanZip(zip) == Scan(es + ScanZip(fpZip.Rest()).entries, ScanZip(fpZip.Rest()).err)
      decreases |fpZip.Rest()|
    {
      ghost var s := fpZip.Rest();
      var header := fpZip.Read(30);
      ScanFirst(s);
      if |header| != 30 || Read32(header, 0) != LOCAL {
        NotAtLocal(s, header);
        assert es + [] == es;
        break;
      }
      IsAtLocal(s, header);
      var e;
      err, e := ReadEntry(fpZip, header, s);
      if err != ZOk {
        break;
      }
      fpOut, fpOutCD, offset, offsetCD, totalBytes :=
        WriteEntry(e, fpOut, fpOutCD, offset, offsetCD, totalBytes, entries, es);
      MoveOver(es, e, ScanZip(fpZip.Rest()).entries);
      es := es + [e];
      entries := entries + 1;
    }
    if err == ZOk {
      fpOut := FinishArchive(fpOut, fpOutCD, entries, offset, offsetCD, totalBytes, es);
    }
    nRecovered, bytesRecovered := entries, totalBytes;
  }

  lemma WholeArchives(zip: seq<Byte>)
    ensures forall es :: HoldsEntries(zip, es) ==>
      ScanZip(zip) == Scan(es, ZOk) && AllEntries(es) && Locals(es) <= Archive(es)
  {
    forall es | HoldsEntries(zip, es) ensures ScanZip(zip) == Scan(es, ZOk) && AllEntries(es)
      && Locals(es) <= Archive(es) {
      AllRecovered(zip, es);
      hide ScanZip, HoldsEntries, Locals, Directory, EndRecord;
      assert ScanZip(zip).entries == es;
    }
  }

  /** The local entry goes to one file, its central directory record to the other. */
  method WriteEntry(e: Entry, fpOut0: seq<Byte>, fpOutCD0: seq<Byte>, offset0: nat, offsetCD0: nat, totalBytes0: nat,
                    ghost entries: nat, ghost es: seq<Entry>)
    returns (fpOut: seq<Byte>, fpOutCD: seq<Byte>, offset: nat, offsetCD: nat, totalBytes: nat)
    requires IsEntry(e) && Recovered(es, fpOut0, fpOutCD0, entries, totalBytes0) && offset0 == |fpOut0|
      && offsetCD0 == |fpOutCD0|
    ensures Recovered(es + [e], fpOut, fpOutCD, entries + 1, totalBytes) && offset == |fpOut| && offsetCD == |fpOutCD|
  {
    EntryRecovered(es, e, fpOut0, fpOutCD0, entries, totalBytes0);
    hide Recovered, CentralHeader;
    var currentOffset := offset0;
    fpOut := fpOut0 + e.header + e.name + e.extra + e.data;
    offset := offset0 + 30 + |e.name| + |e.extra| + |e.data|;
    totalBytes := totalBytes0 + |e.data|;
    var central := WriteCentralHeader(e.header, currentOffset);
    fpOutCD := fpOutCD0 + central + e.name + e.extra;
    offsetCD := offsetCD0 + 46 + |e.name| + |e.extra|;
  }

  /** The final central directory and the merge. */
  method FinishArchive(fpOut: seq<Byte>, fpOutCD: seq<Byte>, entries: nat, offset: nat, offsetCD: nat,
                       ghost totalBytes: nat, ghost es: seq<Entry>) returns (archive: seq<Byte>)
    requires Recovered(es, fpOut, fpOutCD, entries, totalBytes) && offset == |fpOut| && offsetCD == |fpOutCD|
    ensures AllEntries(es) && archive == Archive(es) && entries == |es| && totalBytes == DataBytes(es)
  {
    hide EndRecord, Recovered, Archive;
    var end := WriteEndRecord(entries, offsetCD, offset);
    var file := new InFile(fpOutCD + end);
    archive := Merge(fpOut, file);
    Finished(es, fpOut, fpOutCD, entries, totalBytes, archive, end);
  }

  // The state of the two output files and the counters after the entries es.
  ghost predicate Recovered(es: seq<Entry>, fpOut: seq<Byte>, fpOutCD: seq<Byte>, entries: nat, totalBytes: nat) {
    AllEntries(es) && fpOut == Locals(es) && fpOutCD == Directory(es) && entries == |es| && totalBytes == DataBytes(es)
  }

  lemma NothingYet(zip: seq<Byte>)
    ensures Recovered([], [], [], 0, 0) && ScanZip(zip) == Scan([] + ScanZip(zip).entries, ScanZip(zip).err)
  {
  }

  lemma EntryRecovered(es: seq<Entry>, e: Entry, fpOut: seq<Byte>, fpOutCD: seq<Byte>, entries: nat, totalBytes: nat)
    requires Recovered(es, fpOut, fpOutCD, entries, totalBytes) && IsEntry(e)
    ensures Recovered(es + [e], fpOut + e.header + e.name + e.extra + e.data,
                      fpOutCD + CentralHeader(e.header, |fpOut|) + e.name + e.extra, entries + 1, totalBytes + |e.data|)
  {
    var central := CentralHeader(e.header, |fpOut|);
    hide IsEntry, CentralHeader;
    assert (es + [e])[..|es|] == es;
    Concatenate4(fpOut, e.header, e.name, e.extra, e.data);
    Concatenate4(fpOutCD, central, e.name, e.extra, []);
    AllEntriesSnoc(es, e);
  }

  lemma AllEntriesSnoc(es: seq<Entry>, e: Entry)
    requires AllEntries(es) && IsEntry(e)
    ensures AllEntries(es + [e])
  {
  }

  lemma Finished(es: seq<Entry>, locals: seq<Byte>, directory: seq<Byte>, entries: nat, totalBytes: nat,
    fpOut: seq<Byte>, end: seq<Byte>)
    requires Recovered(es, locals, directory, entries, totalBytes)
    requires end == EndRecord(entries, |directory|, |locals|) && fpOut == locals + (directory + end)
    ensures AllEntries(es) && fpOut == Archive(es) && entries == |es| && totalBytes == DataBytes(es)
  {
    hide EndRecord, Locals, Directory, DataBytes;
    RegroupThree(locals, directory, end);
  }

  lemma RegroupThree(a: seq<Byte>, b: seq<Byte>, c: seq<Byte>)
    ensures a + (b + c) == a + b + c
  {
  }

  lemma MoveOver(a: seq<Entry>, e: Entry, b: seq<Entry>)
    ensures a + ([e] + b) == a + [e] + b
  {
  }

  lemma ScanFirst(s: seq<Byte>)
    ensures !AtLocal(s) ==> ScanZip(s) == Scan([], ZOk)
    ensures AtLocal(s) && EntryErr(s) != ZOk ==> ScanZip(s).err == EntryErr(s)
    ensures AtLocal(s) && EntryErr(s) == ZOk ==> EntrySize(s) <= |s|
    ensures AtLocal(s) && EntryErr(s) == ZOk ==>
      ScanZip(s) == Scan([FirstEntry(s)] + ScanZip(s[EntrySize(s)..]).entries, ScanZip(s[EntrySize(s)..]).err)
  {
  }

  lemma NotAtLocal(s: seq<Byte>, header: seq<Byte>)
    requires header == (if 30 <= |s| then s[..30] else s) && (|header| != 30 || Read32(header, 0) != LOCAL)
    ensures !AtLocal(s)
  {
  }

  lemma IsAtLocal(s: seq<Byte>, header: seq<Byte>)
    requires header == (if 30 <= |s| then s[..30] else s) && |header| == 30 && Read32(header, 0) == LOCAL
    ensures AtLocal(s)
  {
  }
}
