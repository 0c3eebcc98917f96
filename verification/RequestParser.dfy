// Cutting a request head into words inside the buffer that holds it, and printing it again as the proxy does.
module RequestParser {
  import opened Bytes
  import opened RequestHead

  const NUL: Byte := 0
  const SP: Byte := 32
  const COLON: Byte := 58
  const CRLF: seq<Byte> := [CR, LF]
  const SPACE_SET: set<Byte> := {SP}
  const COLON_SET: set<Byte> := {COLON, SP}
  const LINE_SET: set<Byte> := {CR, LF}
  const MAX_HEADERS: nat := 64

  datatype Header = Header(name: seq<Byte>, value: seq<Byte>)

  datatype Request = Request(verb: seq<Byte>, uri: seq<Byte>, version: seq<Byte>, headers: seq<Header>)

  // A malformed request leaves the words of its first line, and no headers.
  datatype Parsed = Malformed(request: Request) | Parsed(request: Request)

  function Ascii(s: string): (b: seq<Byte>)
    requires forall i :: 0 <= i < |s| ==> s[i] < 128 as char
    ensures |b| == |s|
  {
    seq(|s|, i requires 0 <= i < |s| => s[i] as int)
  }

  // ---- What parsing a string means ----

  /** strcspn: how many bytes come before the first one in d. */
  function Until(s: seq<Byte>, d: set<Byte>): (n: nat)
    ensures n <= |s|
  {
    if s == [] || s[0] in d then 0 else 1 + Until(s[1..], d)
  }

  /** strspn: how many bytes at the beginning are in d. */
  function While(s: seq<Byte>, d: set<Byte>): (n: nat)
    ensures n <= |s|
  {
    if s == [] || s[0] !in d then 0 else 1 + While(s[1..], d)
  }

  // A word, and what comes behind the delimiters after it.
  datatype Token = Token(word: seq<Byte>, rest: seq<Byte>)

  function NextToken(s: seq<Byte>, d: set<Byte>): (t: Token)
    ensures |t.word| + |t.rest| <= |s|
  {
    var n := Until(s, d);
    Token(s[..n], s[n + While(s[n..], d)..])
  }

  function ParseHeaders(s: seq<Byte>, most: nat): seq<Header> {
    if most == 0 then []
    else
      var name := NextToken(s, COLON_SET);
      var value := NextToken(name.rest, LINE_SET);
      if name.word == [] then [] else [Header(name.word, value.word)] + ParseHeaders(value.rest, most - 1)
  }

  predicate IsSpace(b: Byte) { b == SP || 9 <= b <= 13 }

  function SkipSpace(s: seq<Byte>): seq<Byte> {
    if s == [] || !IsSpace(s[0]) then s else SkipSpace(s[1..])
  }

  predicate IsMethod(m: seq<Byte>) {
    m == Ascii("GET") || m == Ascii("POST") || m == Ascii("HEAD") || m == Ascii("CONNECT") || m == Ascii("PUT")
      || m == Ascii("DELETE")
  }

  /** The six methods that are known. */
  lemma KnownMethods()
    ensures IsMethod([0x47, 0x45, 0x54]) && IsMethod([0x50, 0x4F, 0x53, 0x54]) && IsMethod([0x48, 0x45, 0x41, 0x44])
    ensures IsMethod([0x43, 0x4F, 0x4E, 0x4E, 0x45, 0x43, 0x54]) && IsMethod([0x50, 0x55, 0x54])
    ensures IsMethod([0x44, 0x45, 0x4C, 0x45, 0x54, 0x45])
  {
    assert Ascii("GET") == [0x47, 0x45, 0x54] && Ascii("POST") == [0x50, 0x4F, 0x53, 0x54];
    assert Ascii("HEAD") == [0x48, 0x45, 0x41, 0x44] && Ascii("PUT") == [0x50, 0x55, 0x54];
    assert Ascii("CONNECT") == [0x43, 0x4F, 0x4E, 0x4E, 0x45, 0x43, 0x54];
    assert Ascii("DELETE") == [0x44, 0x45, 0x4C, 0x45, 0x54, 0x45];
  }

  const HTTP: seq<Byte> := Ascii("HTTP/")

  function Parse(s: seq<Byte>): Parsed {
    var verb := NextToken(SkipSpace(s), SPACE_SET);
    var uri := NextToken(verb.rest, SPACE_SET);
    var version := NextToken(uri.rest, LINE_SET);
    if IsMethod(verb.word) && HTTP <= version.word then
      Parsed(Request(verb.word, uri.word, version.word[5..], ParseHeaders(version.rest, MAX_HEADERS)))
    else Malformed(Request(verb.word, uri.word, version.word, []))
  }

  /** White space in front of a request does not matter: spaces, and the control characters from 9 to 13. */
  lemma {:induction false} LeadingSpace(w: seq<Byte>, s: seq<Byte>)
    requires forall i :: 0 <= i < |w| ==> w[i] == 0x20 || 9 <= w[i] <= 13
    ensures SkipSpace(w + s) == SkipSpace(s) && Parse(w + s) == Parse(s)
  {
    if w == [] {
      assert w + s == s;
    } else {
      assert (w + s)[1..] == w[1..] + s;
      LeadingSpace(w[1..], s);
      hide NextToken, ParseHeaders, IsMethod;
    }
  }

  /** Anything else does. */
  lemma NothingElseSkipped(s: seq<Byte>)
    requires s != [] && s[0] != 0x20 && !(9 <= s[0] <= 13)
    ensures SkipSpace(s) == s
  {
  }

  // ---- Strings inside a buffer ----

  /** The C string that begins at p: the bytes up to the next NUL. */
  function Text(b: seq<Byte>, p: nat): (s: seq<Byte>)
    requires p <= |b|
    ensures p + |s| <= |b|
    decreases |b| - p
  {
    if p == |b| || b[p] == NUL then [] else [b[p]] + Text(b, p + 1)
  }

  predicate Terminated(b: seq<Byte>, p: nat) {
    exists n :: p <= n < |b| && b[n] == NUL
  }

  lemma {:induction false} TextIs(b: seq<Byte>, p: nat, n: nat)
    requires p <= n <= |b| && (n == |b| || b[n] == NUL) && forall k :: p <= k < n ==> b[k] != NUL
    ensures Text(b, p) == b[p..n]
    decreases n - p
  {
    if p < n {
      TextIs(b, p + 1, n);
    }
  }

  lemma {:induction false} TextEnds(b: seq<Byte>, p: nat)
    requires p <= |b|
    ensures var n := p + |Text(b, p)|;
      && Text(b, p) == b[p..n] && (n < |b| ==> b[n] == NUL) && (forall k :: p <= k < n ==> b[k] != NUL)
      && (Terminated(b, p) ==> n < |b|)
    decreases |b| - p
  {
    if p < |b| && b[p] != NUL {
      TextEnds(b, p + 1);
      assert Terminated(b, p) ==> Terminated(b, p + 1);
    }
  }

  // Writing NULs from `from` on; every string that ends there or before stays what it is.
  predicate OnlyNulsFrom(b: seq<Byte>, b': seq<Byte>, from: nat) {
    && |b'| == |b|
    && (forall k :: 0 <= k < |b| && k < from ==> b'[k] == b[k])
    && (forall k :: from <= k < |b| ==> b'[k] == b[k] || b'[k] == NUL)
  }

  lemma TextStays(b: seq<Byte>, b': seq<Byte>, from: nat, p: nat)
    requires p <= |b| && OnlyNulsFrom(b, b', from) && p + |Text(b, p)| <= from
    ensures Text(b', p) == Text(b, p)
  {
    TextEnds(b, p);
    TextIs(b', p, p + |Text(b, p)|);
    assert b'[p..p + |Text(b, p)|] == b[p..p + |Text(b, p)|];
  }

  lemma {:induction false} UntilIs(s: seq<Byte>, d: set<Byte>, n: nat)
    requires n <= |s| && (n == |s| || s[n] in d) && forall k :: 0 <= k < n ==> s[k] !in d
    ensures Until(s, d) == n
  {
    if n > 0 {
      UntilIs(s[1..], d, n - 1);
    }
  }

  lemma {:induction false} WhileIs(s: seq<Byte>, d: set<Byte>, n: nat)
    requires n <= |s| && (n == |s| || s[n] !in d) && forall k :: 0 <= k < n ==> s[k] in d
    ensures While(s, d) == n
  {
    if n > 0 {
      WhileIs(s[1..], d, n - 1);
    }
  }

  // ---- The methods ----

  /** skip: the word at p, ended by NULs over the delimiters behind it, and where the next one begins. */
  method Skip(buf: array<Byte>, p: nat, d: set<Byte>) returns (word: nat, next: nat)
    requires p <= buf.Length && Terminated(buf[..], p) && NUL !in d
    modifies buf
    ensures word == p <= next <= buf.Length && Terminated(buf[..], next)
    ensures OnlyNulsFrom(old(buf[..]), buf[..], p)
    ensures p + |Text(buf[..], p)| <= next
    ensures NextToken(old(Text(buf[..], p)), d) == Token(Text(buf[..], p), Text(buf[..], next))
  {
    ghost var was, text := buf[..], Text(buf[..], p);
    TextEnds(was, p);
    var endWord := p;
    while buf[endWord] != NUL && buf[endWord] !in d
      invariant p <= endWord <= p + |text| && forall k :: p <= k < endWord ==> was[k] !in d && was[k] != NUL
      decreases buf.Length - endWord
    {
      endWord := endWord + 1;
    }
    next := endWord;
    while buf[next] != NUL && buf[next] in d
      invariant endWord <= next <= p + |text| && forall k :: endWord <= k < next ==> was[k] in d
      decreases buf.Length - next
    {
      next := next + 1;
    }
    SplitToken(was, p, endWord, next, d);
    Blank(buf, endWord, next);
    word := p;
    TextAfterBlank(was, buf[..], p, endWord, next);
  }

  lemma SplitToken(was: seq<Byte>, p: nat, endWord: nat, next: nat, d: set<Byte>)
    requires p <= |was| && p <= endWord <= next <= p + |Text(was, p)|
    requires forall k :: p <= k < endWord ==> was[k] !in d && was[k] != NUL
    requires forall k :: endWord <= k < next ==> was[k] in d
    requires endWord == p + |Text(was, p)| || was[endWord] in d
    requires next == p + |Text(was, p)| || was[next] !in d
    ensures NextToken(Text(was, p), d) == Token(was[p..endWord], was[next..p + |Text(was, p)|])
  {
    hide Text, Until, While;
    TextEnds(was, p);
    var text := Text(was, p);
    var n, m := endWord - p, next - endWord;
    assert text == was[p..p + |text|];
    UntilIs(text, d, n);
    assert text[n..] == was[endWord..p + |text|];
    WhileIs(text[n..], d, m);
    assert text[..n] == was[p..endWord] && text[n + m..] == was[next..p + |text|];
  }

  method Blank(buf: array<Byte>, from: nat, to: nat)
    requires from <= to <= buf.Length
    modifies buf
    ensures forall k :: 0 <= k < buf.Length ==> buf[k] == if from <= k < to then NUL else old(buf[k])
  {
    var p := from;
    while p < to
      invariant from <= p <= to
      invariant forall k :: 0 <= k < buf.Length ==> buf[k] == if from <= k < p then NUL else old(buf[k])
    {
      buf[p] := NUL;
      p := p + 1;
    }
  }

  lemma TextAfterBlank(was: seq<Byte>, now: seq<Byte>, p: nat, endWord: nat, next: nat)
    requires p <= |was| == |now| && p <= endWord <= next <= p + |Text(was, p)| < |was|
    requires forall k :: 0 <= k < |was| ==> now[k] == if endWord <= k < next then NUL else was[k]
    requires endWord == next ==> next == p + |Text(was, p)|
    ensures Text(now, p) == was[p..endWord] && Text(now, next) == was[next..p + |Text(was, p)|]
    ensures Terminated(now, next)
  {
    TextEnds(was, p);
    var end := p + |Text(was, p)|;
    TextIs(now, p, endWord);
    TextIs(now, next, end);
    assert now[p..endWord] == was[p..endWord] && now[next..end] == was[next..end];
    assert now[end] == NUL;
  }

  // Where the words of a header are in the buffer.
  datatype HeaderAt = HeaderAt(name: nat, value: nat)

  /** A word at p that ends before `end`. */
  ghost predicate WordAt(b: seq<Byte>, p: nat, end: nat, word: seq<Byte>) {
    p <= |b| && Text(b, p) == word && p + |word| <= end
  }

  ghost predicate HeadersAt(b: seq<Byte>, hs: seq<HeaderAt>, end: nat, headers: seq<Header>) {
    && |hs| == |headers|
    && forall i :: 0 <= i < |hs| ==>
      WordAt(b, hs[i].name, end, headers[i].name) && WordAt(b, hs[i].value, end, headers[i].value)
  }

  lemma WordStays(b: seq<Byte>, b': seq<Byte>, from: nat, end: nat, p: nat, word: seq<Byte>)
    requires OnlyNulsFrom(b, b', from) && WordAt(b, p, from, word) && from <= end
    ensures WordAt(b', p, end, word)
  {
    TextStays(b, b', from, p);
  }

  lemma HeadersStay(b: seq<Byte>, b': seq<Byte>, from: nat, end: nat, hs: seq<HeaderAt>, headers: seq<Header>)
    requires OnlyNulsFrom(b, b', from) && HeadersAt(b, hs, from, headers) && from <= end
    ensures HeadersAt(b', hs, end, headers)
  {
    hide OnlyNulsFrom, WordAt;
    forall i | 0 <= i < |hs| ensures WordAt(b', hs[i].name, end, headers[i].name)
      && WordAt(b', hs[i].value, end, headers[i].value) {
      WordStays(b, b', from, end, hs[i].name, headers[i].name);
      WordStays(b, b', from, end, hs[i].value, headers[i].value);
    }
  }

  /** parse_http_headers */
  method ParseHttpHeaders(buf: array<Byte>, p0: nat) returns (hs: seq<HeaderAt>, p: nat)
    requires p0 <= buf.Length && Terminated(buf[..], p0)
    modifies buf
    ensures p0 <= p <= buf.Length && OnlyNulsFrom(old(buf[..]), buf[..], p0)
    ensures HeadersAt(buf[..], hs, p, ParseHeaders(old(Text(buf[..], p0)), MAX_HEADERS))
  {
    hide Text, ParseHeaders, NextToken, Terminated, HeadersAt, OnlyNulsFrom;
    hs, p := [], p0;
    ghost var first, all, done := buf[..], ParseHeaders(Text(buf[..], p0), MAX_HEADERS), [];
    NoHeaders(buf[..], p);
    var i := 0;
    while i < MAX_HEADERS
      invariant i <= MAX_HEADERS && p0 <= p <= buf.Length && Terminated(buf[..], p)
      invariant OnlyNulsFrom(first, buf[..], p0) && HeadersAt(buf[..], hs, p, done)
      invariant all == done + ParseHeaders(Text(buf[..], p), MAX_HEADERS - i)
    {
      ghost var before, at := buf[..], p;
      var name, value;
      name, value, p := NameAndValue(buf, p);
      NulsTransitive(first, before, buf[..], p0, at);
      HeadersStay(before, buf[..], at, p, hs, done);
      HeaderTurn(buf[..], Text(before, at), name, value, p, MAX_HEADERS - i, done);
      if buf[name] == NUL {
        break;
      }
      OneMoreHeader(buf[..], hs, p, done, name, value);
      hs, done := hs + [HeaderAt(name, value)], done + [Header(Text(buf[..], name), Text(buf[..], value))];
      i := i + 1;
    }
    if i == MAX_HEADERS {
      NoMoreHeaders(Text(buf[..], p), done);
    }
  }

  lemma NulsTransitive(a: seq<Byte>, b: seq<Byte>, c: seq<Byte>, from: nat, at: nat)
    requires OnlyNulsFrom(a, b, from) && OnlyNulsFrom(b, c, at) && from <= at
    ensures OnlyNulsFrom(a, c, from)
  {
  }

  lemma NoMoreHeaders(s: seq<Byte>, done: seq<Header>)
    ensures done + ParseHeaders(s, 0) == done
  {
  }

  lemma HeaderTurn(b: seq<Byte>, s: seq<Byte>, name: nat, value: nat, next: nat, most: nat, done: seq<Header>)
    requires name < |b| && value <= |b| && next <= |b| && most > 0
    requires var n := NextToken(s, COLON_SET);
      n.word == Text(b, name) && NextToken(n.rest, LINE_SET) == Token(Text(b, value), Text(b, next))
    ensures done + ParseHeaders(s, most) ==
      if b[name] == NUL then done
      else done + [Header(Text(b, name), Text(b, value))] + ParseHeaders(Text(b, next), most - 1)
  {
    hide Text, ParseHeaders, NextToken;
    EmptyText(b, name);
    HeaderStep(s, most);
  }

  lemma NoHeaders(b: seq<Byte>, end: nat)
    ensures HeadersAt(b, [], end, []) && OnlyNulsFrom(b, b, end)
  {
  }

  lemma EmptyText(b: seq<Byte>, p: nat)
    requires p < |b|
    ensures Text(b, p) == [] <==> b[p] == NUL
  {
  }

  lemma OneMoreHeader(b: seq<Byte>, hs: seq<HeaderAt>, end: nat, headers: seq<Header>, name: nat, value: nat)
    requires HeadersAt(b, hs, end, headers)
    requires name <= |b| && value <= |b| && name + |Text(b, name)| <= end && value + |Text(b, value)| <= end
    ensures HeadersAt(b, hs + [HeaderAt(name, value)], end, headers + [Header(Text(b, name), Text(b, value))])
  {
  }

  lemma HeaderStep(s: seq<Byte>, most: nat)
    ensures ParseHeaders(s, most) ==
      if most == 0 || NextToken(s, COLON_SET).word == [] then []
      else [Header(NextToken(s, COLON_SET).word, NextToken(NextToken(s, COLON_SET).rest, LINE_SET).word)]
           + ParseHeaders(NextToken(NextToken(s, COLON_SET).rest, LINE_SET).rest, most - 1)
  {
  }

  /** One turn of the loop: the name and the value. */
  method NameAndValue(buf: array<Byte>, p: nat) returns (name: nat, value: nat, next: nat)
    requires p <= buf.Length && Terminated(buf[..], p)
    modifies buf
    ensures p == name <= value <= next <= buf.Length && name < buf.Length && Terminated(buf[..], next)
      && OnlyNulsFrom(old(buf[..]), buf[..], p)
    ensures name + |Text(buf[..], name)| <= next && value + |Text(buf[..], value)| <= next
    ensures var n := NextToken(old(Text(buf[..], p)), COLON_SET);
      n.word == Text(buf[..], name) && NextToken(n.rest, LINE_SET) == Token(Text(buf[..], value), Text(buf[..], next))
  {
    hide Text, NextToken;
    var behindName;
    name, behindName := Skip(buf, p, COLON_SET);
    ghost var between := buf[..];
    value, next := Skip(buf, behindName, LINE_SET);
    TextStays(between, buf[..], value, name);
  }

  /** Where the words of a request are in the buffer. */
  datatype RequestAt = RequestAt(verb: nat, uri: nat, version: nat, headers: seq<HeaderAt>)

  ghost predicate RequestIsAt(b: seq<Byte>, ri: RequestAt, r: Request) {
    && WordAt(b, ri.verb, |b|, r.verb) && WordAt(b, ri.uri, |b|, r.uri) && WordAt(b, ri.version, |b|, r.version)
    && HeadersAt(b, ri.headers, |b|, r.headers)
  }

  lemma SkipOneSpace(b: seq<Byte>, p: nat)
    requires p < |b| && b[p] != NUL && Terminated(b, p)
    ensures Text(b, p) == [b[p]] + Text(b, p + 1) && Terminated(b, p + 1)
    ensures IsSpace(b[p]) ==> SkipSpace(Text(b, p)) == SkipSpace(Text(b, p + 1))
    ensures !IsSpace(b[p]) ==> SkipSpace(Text(b, p)) == Text(b, p)
  {
  }

  /** Leading white space is ignored. */
  method SkipLeadingSpace(buf: array<Byte>, p0: nat) returns (p: nat)
    requires p0 <= buf.Length && Terminated(buf[..], p0)
    ensures p0 <= p <= buf.Length && Terminated(buf[..], p) && Text(buf[..], p) == SkipSpace(Text(buf[..], p0))
  {
    p := p0;
    while buf[p] != NUL && IsSpace(buf[p])
      invariant p0 <= p < buf.Length && Terminated(buf[..], p)
        && SkipSpace(Text(buf[..], p)) == SkipSpace(Text(buf[..], p0))
      decreases buf.Length - p
    {
      SkipOneSpace(buf[..], p);
      p := p + 1;
    }
    EmptyText(buf[..], p);
    if buf[p] != NUL {
      SkipOneSpace(buf[..], p);
    }
  }

  /** strcmp with a constant. */
  method TextEquals(buf: array<Byte>, p: nat, word: seq<Byte>) returns (same: bool)
    requires p <= buf.Length && Terminated(buf[..], p) && forall i :: 0 <= i < |word| ==> word[i] != NUL
    ensures same == (Text(buf[..], p) == word)
  {
    TextEnds(buf[..], p);
    ghost var text := Text(buf[..], p);
    var i := 0;
    while i < |word| && buf[p + i] == word[i]
      invariant i <= |word| && i <= |text| && text[..i] == word[..i]
    {
      i := i + 1;
    }
    same := i == |word| && buf[p + i] == NUL;
    assert i < |word| ==> (i == |text| || text[i] != word[i]);
  }

  /** strncmp with a constant. */
  method TextBegins(buf: array<Byte>, p: nat, word: seq<Byte>) returns (same: bool)
    requires p <= buf.Length && Terminated(buf[..], p) && forall i :: 0 <= i < |word| ==> word[i] != NUL
    ensures same == (word <= Text(buf[..], p))
  {
    TextEnds(buf[..], p);
    ghost var text := Text(buf[..], p);
    var i := 0;
    while i < |word| && buf[p + i] == word[i]
      invariant i <= |word| && i <= |text| && text[..i] == word[..i]
    {
      i := i + 1;
    }
    same := i == |word|;
    assert i < |word| ==> (i == |text| || text[i] != word[i]);
  }

  method IsValidHttpMethod(buf: array<Byte>, p: nat) returns (valid: bool)
    requires p <= buf.Length && Terminated(buf[..], p)
    ensures valid == IsMethod(Text(buf[..], p))
  {
    hide Text;
    valid := false;
    var methods: seq<seq<Byte>> := [Ascii("GET"), Ascii("POST"), Ascii("HEAD"), Ascii("CONNECT"), Ascii("PUT"),
      Ascii("DELETE")];
    var i := 0;
    while i < |methods| && !valid
      invariant i <= |methods| && valid == exists j :: 0 <= j < i && Text(buf[..], p) == methods[j]
    {
      valid := TextEquals(buf, p, methods[i]);
      i := i + 1;
    }
    assert IsMethod(Text(buf[..], p)) <==> exists j :: 0 <= j < 6 && Text(buf[..], p) == methods[j] by {
      MethodsAre(Text(buf[..], p), methods);
    }
  }

  lemma MethodsAre(m: seq<Byte>, methods: seq<seq<Byte>>)
    requires methods == [Ascii("GET"), Ascii("POST"), Ascii("HEAD"), Ascii("CONNECT"), Ascii("PUT"), Ascii("DELETE")]
    ensures IsMethod(m) <==> exists j :: 0 <= j < 6 && m == methods[j]
  {
    hide Ascii;
    if IsMethod(m) {
      assert m == methods[0] || m == methods[1] || m == methods[2] || m == methods[3] || m == methods[4]
        || m == methods[5];
    }
  }

  lemma TextTail(b: seq<Byte>, p: nat, n: nat)
    requires p <= |b| && n <= |Text(b, p)|
    ensures Text(b, p + n) == Text(b, p)[n..]
  {
    TextEnds(b, p);
    var end := p + |Text(b, p)|;
    TextIs(b, p + n, end);
    assert b[p..end][n..] == b[p + n..end];
  }

  lemma HeadersEarlier(b: seq<Byte>, hs: seq<HeaderAt>, end: nat, end': nat, headers: seq<Header>)
    requires HeadersAt(b, hs, end, headers) && end <= end'
    ensures HeadersAt(b, hs, end', headers)
  {
  }

  /** The three words of the request line. */
  method RequestLine(buf: array<Byte>) returns (verb: nat, uri: nat, version: nat, next: nat)
    requires Terminated(buf[..], 0)
    modifies buf
    ensures verb <= uri <= version <= next <= buf.Length && Terminated(buf[..], next) && Terminated(buf[..], verb)
      && Terminated(buf[..], version)
    ensures var v := NextToken(SkipSpace(old(Text(buf[..], 0))), SPACE_SET);
      var u := NextToken(v.rest, SPACE_SET);
      && WordAt(buf[..], verb, next, v.word) && WordAt(buf[..], uri, next, u.word)
      && version + |Text(buf[..], version)| <= next
      && NextToken(u.rest, LINE_SET) == Token(Text(buf[..], version), Text(buf[..], next))
  {
    hide Text, NextToken, SkipSpace;
    var p := SkipLeadingSpace(buf, 0);
    verb, p := Skip(buf, p, SPACE_SET);
    ghost var b1, p1 := buf[..], p;
    uri, p := Skip(buf, p, SPACE_SET);
    ghost var b2, p2 := buf[..], p;
    ghost var word := Text(b1, verb);
    WordStays(b1, b2, p1, p2, verb, word);
    version, next := Skip(buf, p, LINE_SET);
    WordStays(b2, buf[..], p2, next, verb, word);
    WordStays(b2, buf[..], p2, next, uri, Text(b2, uri));
    TerminatedBefore(buf[..], verb, next);
    TerminatedBefore(buf[..], version, next);
  }

  lemma TerminatedBefore(b: seq<Byte>, p: nat, q: nat)
    requires p <= q && Terminated(b, q)
    ensures Terminated(b, p)
  {
  }

  /** parse_http_request: whether the request is well formed, and where its words are in the buffer, each ended by
      a NUL; of a malformed one, the words of the first line. */
  method ParseHttpRequest(buf: array<Byte>) returns (status: bool, ri: RequestAt)
    requires Terminated(buf[..], 0)
    modifies buf
    ensures var parsed := Parse(old(Text(buf[..], 0)));
      status == parsed.Parsed? && RequestIsAt(buf[..], ri, parsed.request)
  {
    hide Text, NextToken, SkipSpace, ParseHeaders, HeadersAt, IsMethod;
    var verb, uri, version, p := RequestLine(buf);
    var valid := IsValidHttpMethod(buf, verb);
    var http := TextBegins(buf, version, HTTP);
    status := valid && http;
    ri := RequestAt(verb, uri, version, []);
    NoHeaders(buf[..], buf.Length);
    if status {
      TextTail(buf[..], version, 5);
      ghost var b := buf[..];
      ghost var word := Text(b, version);
      var hs, end := ParseHttpHeaders(buf, p);
      WordStays(b, buf[..], p, buf.Length, verb, Text(b, verb));
      WordStays(b, buf[..], p, buf.Length, uri, Text(b, uri));
      WordStays(b, buf[..], p, buf.Length, version + 5, word[5..]);
      ri := RequestAt(verb, uri, version + 5, hs);
      HeadersEarlier(buf[..], hs, end, buf.Length, ParseHeaders(Text(b, p), MAX_HEADERS));
    }
  }
}
