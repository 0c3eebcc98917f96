// A request as the proxy prints it is framed and parsed back, and exactly when to the same request.
module RequestRoundTrip {
  import opened Bytes
  import opened RequestHead
  import opened RequestParser

  /** Words that the parser can tell from the separators: the method is a known one, the URI holds no space, the
      version and the values no line end, and a name neither a colon nor a space nor a line end in front. */
  predicate Separable(r: Request) {
    && IsMethod(r.verb)
    && r.uri != [] && SP !in r.uri
    && InLine(r.version)
    && forall i :: 0 <= i < |r.headers| ==> HeaderOk(r.headers[i])
  }

  predicate HeaderOk(h: Header) {
    h.name != [] && SP !in h.name && COLON !in h.name && h.name[0] !in LINE_SET && InLine(h.value)
  }

  predicate InLine(s: seq<Byte>) { CR !in s && LF !in s }

  /** No control characters: nothing that ends a line or a string, and nothing illegal in a head. */
  predicate Clean(s: seq<Byte>) {
    forall i :: 0 <= i < |s| ==> s[i] >= 32 && s[i] != 127
  }

  predicate AllClean(r: Request) {
    && Clean(r.uri) && Clean(r.version)
    && forall i :: 0 <= i < |r.headers| ==> Clean(r.headers[i].name) && Clean(r.headers[i].value)
  }

  /** What is read of a printed value: colons and spaces in front go with those behind the name. */
  function Stripped(value: seq<Byte>): seq<Byte> { value[While(value, COLON_SET)..] }

  /** What is read of printed headers: at most so many, with stripped values. */
  function AsRead(hs: seq<Header>, most: nat): seq<Header> {
    if hs == [] || most == 0 then [] else [Header(hs[0].name, Stripped(hs[0].value))] + AsRead(hs[1..], most - 1)
  }

  function HeaderLine(h: Header): seq<Byte> { h.name + [COLON, SP] + h.value }

  function RequestLineOf(r: Request): seq<Byte> { r.verb + [SP] + r.uri + [SP] + HTTP + r.version }

  function PrintHeaders(hs: seq<Header>): seq<Byte> {
    if hs == [] then [] else HeaderLine(hs[0]) + CRLF + PrintHeaders(hs[1..])
  }

  /** What handle_proxy_request sends. */
  function Print(r: Request): (s: seq<Byte>)
    ensures |s| >= 2
  {
    RequestLineOf(r) + CRLF + PrintHeaders(r.headers) + CRLF
  }

  // ---- Parsing ----

  /** A word, delimiters, and something that does not begin with a delimiter. */
  lemma TokenIs(word: seq<Byte>, gap: seq<Byte>, rest: seq<Byte>, d: set<Byte>)
    requires forall k :: 0 <= k < |word| ==> word[k] !in d
    requires forall k :: 0 <= k < |gap| ==> gap[k] in d
    requires (gap == [] ==> rest == []) && (rest != [] ==> rest[0] !in d)
    ensures NextToken(word + gap + rest, d) == Token(word, rest)
  {
    var s := word + gap + rest;
    UntilIs(s, d, |word|);
    assert s[|word|..] == gap + rest;
    WhileIs(gap + rest, d, |gap|);
    hide Until, While;
    assert s[|word| + |gap|..] == rest;
  }

  /** The end of a line, whatever lines follow; the last line feed of all has become a NUL. */
  lemma LineRead(word: seq<Byte>, following: seq<Byte>)
    requires forall k :: 0 <= k < |word| ==> word[k] !in LINE_SET
    requires following != [] ==> following[0] !in LINE_SET
    ensures NextToken(word + CRLF + following + [CR], LINE_SET)
      == Token(word, if following == [] then [] else following + [CR])
  {
    hide NextToken;
    if following == [] {
      TokenIs(word, CRLF + [CR], [], LINE_SET);
      assert word + CRLF + following + [CR] == word + (CRLF + [CR]) + [];
    } else {
      TokenIs(word, CRLF, following + [CR], LINE_SET);
      assert word + CRLF + following + [CR] == word + CRLF + (following + [CR]);
    }
  }

  lemma WhileEnds(s: seq<Byte>, d: set<Byte>)
    ensures forall k :: 0 <= k < While(s, d) ==> s[k] in d
    ensures While(s, d) < |s| ==> s[While(s, d)] !in d
  {
  }

  lemma HeaderRead(h: Header, following: seq<Byte>)
    requires HeaderOk(h) && (following != [] ==> following[0] !in LINE_SET)
    ensures var name := NextToken(HeaderLine(h) + CRLF + following + [CR], COLON_SET);
      name.word == h.name
      && NextToken(name.rest, LINE_SET) == Token(Stripped(h.value), if following == [] then [] else following + [CR])
  {
    var n := While(h.value, COLON_SET);
    WhileEnds(h.value, COLON_SET);
    hide NextToken, While;
    var gap, value := [COLON, SP] + h.value[..n], h.value[n..];
    var behind := value + CRLF + following + [CR];
    assert forall k :: 0 <= k < |gap| ==> gap[k] in COLON_SET;
    assert value != [] ==> value[0] == h.value[n];
    TokenIs(h.name, gap, behind, COLON_SET);
    assert h.value == h.value[..n] + value;
    assert HeaderLine(h) + CRLF + following + [CR] == h.name + gap + behind;
    LineRead(value, following);
  }

  /** Printed headers are read back, with stripped values, as many as there is room for. */
  lemma {:induction false} HeadersRoundTrip(hs: seq<Header>, most: nat)
    requires forall i :: 0 <= i < |hs| ==> HeaderOk(hs[i])
    ensures ParseHeaders(if hs == [] then [] else PrintHeaders(hs) + [CR], most) == AsRead(hs, most)
  {
    hide NextToken, HeaderOk, HeaderLine, Stripped;
    if hs == [] {
      assert NextToken([], COLON_SET) == Token([], []) by {
        NoToken();
      }
    } else if most > 0 {
      var h, rest := hs[0], hs[1..];
      FirstNotLineEnd(rest);
      HeaderRead(h, PrintHeaders(rest));
      NameNotEmpty(h);
      HeadersRoundTrip(rest, most - 1);
      assert rest == [] <==> PrintHeaders(rest) == [];
      HeaderStep(PrintHeaders(hs) + [CR], most);
    }
  }

  lemma NoToken()
    ensures NextToken([], COLON_SET) == Token([], [])
  {
  }

  lemma NameNotEmpty(h: Header)
    requires HeaderOk(h)
    ensures h.name != []
  {
  }

  lemma FirstNotLineEnd(hs: seq<Header>)
    requires hs != [] ==> HeaderOk(hs[0])
    ensures hs == [] <==> PrintHeaders(hs) == []
    ensures hs != [] ==> PrintHeaders(hs)[0] !in LINE_SET
  {
  }

  lemma MethodClean(m: seq<Byte>)
    requires IsMethod(m)
    ensures m != [] && Clean(m) && SP !in m
  {
  }

  lemma HttpClean()
    ensures Clean(HTTP) && InLine(HTTP) && |HTTP| == 5 && HTTP[0] != SP
  {
  }

  /** The printed request, with its last line feed replaced by a NUL, is parsed back to the same method, URI and
      version and to what is read of its headers. */
  lemma ParsePrinted(r: Request)
    requires Separable(r)
    ensures Parse(Print(r)[..|Print(r)| - 1]) == Parsed(r.(headers := AsRead(r.headers, MAX_HEADERS)))
  {
    hide NextToken, ParseHeaders, IsMethod, PrintHeaders, Clean, AsRead;
    MethodClean(r.verb);
    HttpClean();
    var version := HTTP + r.version;
    var tail := CRLF + PrintHeaders(r.headers) + [CR];
    var text := Print(r)[..|Print(r)| - 1];
    assert text == r.verb + [SP] + (r.uri + [SP] + (version + tail));
    NoSpaceFirst(r.verb, text);
    TokenIs(r.verb, [SP], r.uri + [SP] + (version + tail), SPACE_SET);
    TokenIs(r.uri, [SP], version + tail, SPACE_SET);
    VersionRead(version, r.headers);
    HeadersRoundTrip(r.headers, MAX_HEADERS);
    assert version[5..] == r.version;
  }

  lemma NoSpaceFirst(m: seq<Byte>, text: seq<Byte>)
    requires m != [] && Clean(m) && SP !in m && m <= text
    ensures SkipSpace(text) == text
  {
  }

  lemma VersionRead(version: seq<Byte>, hs: seq<Header>)
    requires InLine(version) && forall i :: 0 <= i < |hs| ==> HeaderOk(hs[i])
    ensures NextToken(version + (CRLF + PrintHeaders(hs) + [CR]), LINE_SET)
      == Token(version, if hs == [] then [] else PrintHeaders(hs) + [CR])
  {
    hide NextToken, PrintHeaders, HeaderOk;
    FirstNotLineEnd(hs);
    var following := PrintHeaders(hs);
    LineRead(version, following);
    Concatenate4(version, CRLF, following, [CR], []);
  }

  /** A value is read as it was printed if and only if it is empty or begins with neither a colon nor a space. */
  lemma ValueSurvivesIff(value: seq<Byte>)
    ensures Stripped(value) == value <==> value == [] || value[0] !in COLON_SET
  {
  }

  /** Headers are read as they were printed if and only if there are no more than fit and every value is such a one. */
  lemma {:induction false} HeadersSurviveIff(hs: seq<Header>, most: nat)
    ensures AsRead(hs, most) == hs <==>
      |hs| <= most && forall i :: 0 <= i < |hs| ==> hs[i].value == [] || hs[i].value[0] !in COLON_SET
  {
    hide Stripped;
    if hs != [] && most > 0 {
      var rest := hs[1..];
      HeadersSurviveIff(rest, most - 1);
      ValueSurvivesIff(hs[0].value);
      assert hs == [hs[0]] + rest;
      var read := AsRead(hs, most);
      assert read[0] == Header(hs[0].name, Stripped(hs[0].value)) && read[1..] == AsRead(rest, most - 1);
    }
  }

  /** What a word and the rest behind it look like. */
  lemma {:induction false} TokenShape(s: seq<Byte>, d: set<Byte>)
    ensures var t := NextToken(s, d);
      && (forall k :: 0 <= k < |t.word| ==> t.word[k] !in d && t.word[k] == s[k])
      && (t.rest != [] ==> t.rest[0] !in d)
      && (t.word == [] <==> s == [] || s[0] in d) && (s == [] ==> t.rest == [])
  {
    UntilShape(s, d);
    WhileEnds(s[Until(s, d)..], d);
  }

  lemma {:induction false} UntilShape(s: seq<Byte>, d: set<Byte>)
    ensures forall k :: 0 <= k < Until(s, d) ==> s[k] !in d
    ensures Until(s, d) == 0 <==> s == [] || s[0] in d
  {
    if s != [] && s[0] !in d {
      UntilShape(s[1..], d);
      assert forall k :: 0 < k < Until(s, d) ==> s[1..][k - 1] == s[k];
    }
  }

  /** Headers that were read from the beginning of a line. */
  lemma {:induction false} ReadHeadersOk(s: seq<Byte>, most: nat)
    requires s == [] || s[0] !in LINE_SET
    ensures var hs := ParseHeaders(s, most); |hs| <= most && forall i :: 0 <= i < |hs| ==> HeaderOk(hs[i])
    decreases most
  {
    hide NextToken;
    if most > 0 {
      var name := NextToken(s, COLON_SET);
      var value := NextToken(name.rest, LINE_SET);
      TokenShape(s, COLON_SET);
      TokenShape(name.rest, LINE_SET);
      ReadHeadersOk(value.rest, most - 1);
    }
  }

  /** Whatever is parsed successfully has words that can be told from the separators, and at most 64 headers. */
  lemma ParsedIsSeparable(s: seq<Byte>, r: Request)
    requires Parse(s) == Parsed(r)
    ensures Separable(r) && |r.headers| <= 64
  {
    hide NextToken, IsMethod, HeaderOk, ParseHeaders;
    var verb := NextToken(SkipSpace(s), SPACE_SET);
    var uri := NextToken(verb.rest, SPACE_SET);
    var version := NextToken(uri.rest, LINE_SET);
    TokenShape(SkipSpace(s), SPACE_SET);
    TokenShape(verb.rest, SPACE_SET);
    TokenShape(uri.rest, LINE_SET);
    HttpClean();
    ReadHeadersOk(version.rest, MAX_HEADERS);
    assert r.version == version.word[5..];
  }

  /** So a printed request makes the round trip if and only if its words can be told from the separators, it has no
      more headers than fit, and every value is empty or begins with neither a colon nor a space. */
  lemma RoundTripIff(r: Request)
    ensures Parse(Print(r)[..|Print(r)| - 1]) == Parsed(r) <==>
      && Separable(r) && |r.headers| <= 64
      && forall i :: 0 <= i < |r.headers| ==> r.headers[i].value == [] || r.headers[i].value[0] !in COLON_SET
  {
    hide Separable, Parse, Print, AsRead;
    if Separable(r) {
      ParsePrinted(r);
      HeadersSurviveIff(r.headers, MAX_HEADERS);
    } else if Parse(Print(r)[..|Print(r)| - 1]) == Parsed(r) {
      ParsedIsSeparable(Print(r)[..|Print(r)| - 1], r);
    }
  }

  // ---- Framing ----

  function Lines(ls: seq<seq<Byte>>): seq<Byte> {
    if ls == [] then [] else ls[0] + CRLF + Lines(ls[1..])
  }

  /** Lines that are not empty and hold no line ends are followed by the only empty line. */
  lemma {:induction false} OnlyBlankLine(ls: seq<seq<Byte>>, p: nat)
    requires ls != [] && forall i :: 0 <= i < |ls| ==> ls[i] != [] && Clean(ls[i])
    ensures BlankLineAt(Lines(ls) + CRLF, p) <==> p == |Lines(ls)| - 1
  {
    var l, rest := ls[0], ls[1..];
    var s, tail := Lines(ls) + CRLF, Lines(rest) + CRLF;
    assert s == l + CRLF + tail;
    if p > |l| + 1 {
      if rest != [] {
        OnlyBlankLine(rest, p - |l| - 2);
      }
    } else if p == |l| + 1 {
      if rest != [] {
        assert tail[0] == rest[0][0];
      }
    }
  }

  lemma {:induction false} HeaderLines(hs: seq<Header>) returns (ls: seq<seq<Byte>>)
    requires forall i :: 0 <= i < |hs| ==> hs[i].name != [] && Clean(hs[i].name) && Clean(hs[i].value)
    ensures PrintHeaders(hs) == Lines(ls) && forall i :: 0 <= i < |ls| ==> ls[i] != [] && Clean(ls[i])
  {
    if hs == [] {
      ls := [];
    } else {
      var rest := HeaderLines(hs[1..]);
      ls := [HeaderLine(hs[0])] + rest;
    }
  }

  /** The printed request ends at its first empty line, and holds nothing illegal. */
  lemma PrintedIsFramed(r: Request)
    requires Separable(r) && AllClean(r)
    ensures RequestLen(Print(r)) == |Print(r)|
    ensures forall i :: 0 <= i < |Print(r)| ==> !Illegal(Print(r)[i])
  {
    hide RequestLen;
    var hls := HeaderLines(r.headers);
    var ls := [RequestLineOf(r)] + hls;
    RequestLineClean(r);
    assert Print(r) == Lines(ls) + CRLF;
    LinesFramed(ls);
  }

  lemma LinesFramed(ls: seq<seq<Byte>>)
    requires ls != [] && forall i :: 0 <= i < |ls| ==> ls[i] != [] && Clean(ls[i])
    ensures var s := Lines(ls) + CRLF; RequestLen(s) == |s| && forall i :: 0 <= i < |s| ==> !Illegal(s[i])
  {
    var s := Lines(ls) + CRLF;
    LinesLegal(ls);
    OnlyBlankLine(ls, |Lines(ls)| - 1);
    EarliestBlankLine(s);
    var p :| 0 <= p < |s| && BlankLineAt(s, p) && RequestLen(s) == HeadEnd(s, p);
    OnlyBlankLine(ls, p);
  }

  lemma {:induction false} LinesLegal(ls: seq<seq<Byte>>)
    requires forall i :: 0 <= i < |ls| ==> ls[i] != [] && Clean(ls[i])
    ensures |Lines(ls)| >= 3 * |ls| && forall i :: 0 <= i < |Lines(ls)| ==> !Illegal(Lines(ls)[i])
  {
    if ls != [] {
      LinesLegal(ls[1..]);
    }
  }

  lemma RequestLineClean(r: Request)
    requires Separable(r) && AllClean(r)
    ensures RequestLineOf(r) != [] && Clean(RequestLineOf(r))
  {
    MethodClean(r.verb);
    HttpClean();
    hide IsMethod;
  }

  /** A forwarded request, followed by anything and cut into pieces in any way, is read as the same request: the
      answer is its length once it has come, and parsing the string that the buffer then holds finds its words. */
  lemma ForwardedRequest(r: Request, body: seq<Byte>, cuts: seq<nat>)
    requires Separable(r) && AllClean(r)
    requires forall i :: 0 <= i < |cuts| ==> cuts[i] <= |Print(r) + body|
    ensures FirstAnswer(Print(r) + body, cuts)
      == if exists i :: 0 <= i < |cuts| && cuts[i] >= |Print(r)| then |Print(r)| else 0
    ensures Parse(Text((Print(r) + body)[|Print(r)| - 1 := NUL], 0))
      == Parsed(r.(headers := AsRead(r.headers, MAX_HEADERS)))
  {
    hide Print, Parse, Separable, AllClean, RequestLen, FirstAnswer, AsRead;
    var s := Print(r);
    PrintedIsFramed(r);
    StableLength(s, body);
    assert forall i :: 0 <= i < |s| ==> (s + body)[i] == s[i];
    AnyChunking(s + body, cuts);
    ParsePrinted(r);
    var b := (s + body)[|s| - 1 := NUL];
    assert Illegal(NUL);
    assert forall i :: 0 <= i < |s| - 1 ==> b[i] == s[i] != NUL;
    TextIs(b, 0, |s| - 1);
    assert b[0..|s| - 1] == s[..|s| - 1];
  }
}
