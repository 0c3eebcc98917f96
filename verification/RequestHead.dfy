// A socket as the reading functions see it: bytes that arrive in pieces of any size.
module Sockets {
  import opened Bytes

  function Least(a: int, b: int, c: int): int {
    if a <= b && a <= c then a else if b <= c then b else c
  }

  class Socket {
    // What the peer will still send, and how much of it each call will deliver; 0 or less ends a read.
    var incoming: seq<Byte>
    var plan: seq<int>

    constructor (bytes: seq<Byte>, sizes: seq<int>)
      ensures incoming == bytes && plan == sizes
    {
      incoming, plan := bytes, sizes;
    }

    /** pull: at most len bytes, or none at the end of the stream, after an error, or when the plan says so. */
    method Pull(len: nat) returns (n: int, data: seq<Byte>)
      modifies this
      ensures n <= len && |data| == (if n > 0 then n else 0) && old(incoming) == data + incoming
      ensures n == if old(plan) == [] then 0 else Least(old(plan)[0], len, |old(incoming)|)
      ensures plan == if old(plan) == [] then [] else old(plan)[1..]
    {
      data := [];
      if plan == [] {
        n := 0;
      } else {
        n := plan[0];
        plan := plan[1..];
        n := if n > len then len else n;
        n := if n > |incoming| then |incoming| else n;
        if n > 0 {
          data := incoming[..n];
          incoming := incoming[n..];
        }
      }
    }
  }
}

// Where a request head ends, and reading one from a socket.
module RequestHead {
  import opened Bytes
  import opened Sockets

  const CR: Byte := 13
  const LF: Byte := 10

  /** Control characters other than CR and LF are not allowed, but bytes from 128 on are. */
  predicate Illegal(b: Byte) {
    b < 128 && !(32 <= b < 127) && b != CR && b != LF
  }

  /** A line end at p with an empty line behind it, all of it within s. */
  predicate BlankLineAt(s: seq<Byte>, p: nat) {
    || (p + 1 < |s| && s[p] == LF && s[p + 1] == LF)
    || (p + 2 < |s| && s[p] == LF && s[p + 1] == CR && s[p + 2] == LF)
  }

  function HeadEnd(s: seq<Byte>, p: nat): nat
    requires BlankLineAt(s, p)
  {
    if s[p + 1] == LF then p + 2 else p + 3
  }

  function FirstBlankLine(s: seq<Byte>, from: nat): (p: nat)
    requires from <= |s|
    ensures from <= p <= |s|
    decreases |s| - from
  {
    if from == |s| || BlankLineAt(s, from) then from else FirstBlankLine(s, from + 1)
  }

  /** The length of the head in s up to and with the first empty line; without one, -1 if an illegal byte
      has been seen (the last byte is not looked at), else 0. */
  function RequestLen(s: seq<Byte>): int {
    var p := FirstBlankLine(s, 0);
    if p < |s| && BlankLineAt(s, p) then HeadEnd(s, p)
    else if exists i :: 0 <= i < |s| - 1 && Illegal(s[i]) then -1
    else 0
  }

  /** Without an empty line the answer is -1 exactly when a control character has been seen that is no line end. */
  lemma BadByteSeen(s: seq<Byte>)
    requires forall p :: 0 <= p < |s| ==> !BlankLineAt(s, p)
    ensures RequestLen(s) == -1 <==>
      exists i :: 0 <= i < |s| - 1 && (s[i] == 127 || (s[i] < 32 && s[i] != 10 && s[i] != 13))
  {
    FirstBlankLineIsFirst(s, 0);
    if i :| 0 <= i < |s| - 1 && Illegal(s[i]) {
      assert s[i] == 127 || (s[i] < 32 && s[i] != 10 && s[i] != 13);
    }
    if i :| 0 <= i < |s| - 1 && (s[i] == 127 || (s[i] < 32 && s[i] != 10 && s[i] != 13)) {
      assert Illegal(s[i]);
    }
  }

  /** A line feed, with a carriage return in front or not, ends a line; two in a row end the head. */
  lemma BareLineFeeds(line: seq<Byte>, rest: seq<Byte>)
    requires 10 !in line
    ensures RequestLen(line + [10, 10] + rest) == |line| + 2 && RequestLen(line + [10, 13, 10] + rest) == |line| + 3
  {
    var s, t := line + [10, 10] + rest, line + [10, 13, 10] + rest;
    FirstBlankLineIsFirst(s, 0);
    FirstBlankLineIsFirst(t, 0);
    assert BlankLineAt(s, |line|) && BlankLineAt(t, |line|);
    assert forall q :: 0 <= q < |line| ==> s[q] == line[q] && t[q] == line[q];
    assert forall q :: 0 <= q < |line| ==> !BlankLineAt(s, q) && !BlankLineAt(t, q);
  }

  lemma {:induction false} FirstBlankLineIsFirst(s: seq<Byte>, from: nat)
    requires from <= |s|
    ensures var p := FirstBlankLine(s, from);
      && (p < |s| ==> BlankLineAt(s, p))
      && forall q :: from <= q < p ==> !BlankLineAt(s, q)
    decreases |s| - from
  {
    if from < |s| && !BlankLineAt(s, from) {
      FirstBlankLineIsFirst(s, from + 1);
    }
  }

  /** A positive answer is the end of the earliest empty line, and there is one exactly when there is an
      empty line. */
  lemma EarliestBlankLine(s: seq<Byte>)
    ensures RequestLen(s) > 0 <==> exists p :: 0 <= p < |s| && BlankLineAt(s, p)
    ensures RequestLen(s) > 0 ==>
      exists p :: 0 <= p < |s| && BlankLineAt(s, p) && RequestLen(s) == HeadEnd(s, p)
        && forall q :: 0 <= q < p ==> !BlankLineAt(s, q)
    ensures RequestLen(s) <= |s|
  {
    FirstBlankLineIsFirst(s, 0);
  }

  /** Bytes behind the head do not change where it ends. */
  lemma StableLength(s: seq<Byte>, more: seq<Byte>)
    requires RequestLen(s) > 0
    ensures RequestLen(s + more) == RequestLen(s)
  {
    FirstBlankLineIsFirst(s, 0);
    FirstBlankLineIsFirst(s + more, 0);
    var p := FirstBlankLine(s, 0);
    assert BlankLineAt(s + more, p);
    forall q | 0 <= q < p ensures !BlankLineAt(s + more, q) {
      assert !BlankLineAt(s, q);
    }
  }

  /** Before its end there is no head, whatever part of it has come. */
  lemma NoEarlierEnd(s: seq<Byte>, n: nat)
    requires n <= |s| && RequestLen(s) > 0 && n < RequestLen(s)
    ensures RequestLen(s[..n]) <= 0
    ensures RequestLen(s[..n]) == -1 <==> exists i :: 0 <= i < n - 1 && Illegal(s[i])
  {
    FirstBlankLineIsFirst(s, 0);
    FirstBlankLineIsFirst(s[..n], 0);
    var p := FirstBlankLine(s[..n], 0);
    if p < n {
      assert BlankLineAt(s, p);
      assert false;
    }
    assert forall i :: 0 <= i < n ==> s[..n][i] == s[i];
  }

  /** get_request_len */
  method GetRequestLen(buf: array<Byte>, buflen: nat) returns (len: int)
    requires buflen <= buf.Length
    ensures len == RequestLen(buf[..buflen])
  {
    len := 0;
    ghost var text := buf[..buflen];
    FirstBlankLineIsFirst(text, 0);
    var s, e := 0, buflen - 1;
    while len <= 0 && s < e
      invariant 0 <= s && (s <= e || s == 0)
      invariant len <= 0 ==> len == if exists i :: 0 <= i < s && Illegal(text[i]) then -1 else 0
      invariant len <= 0 ==> forall q :: 0 <= q < s ==> !BlankLineAt(text, q)
      invariant len > 0 ==> len == RequestLen(text)
      decreases e - s
    {
      if Illegal(buf[s]) {
        len := -1;
        assert Illegal(text[s]) && !BlankLineAt(text, s);
      } else if buf[s] == LF && buf[s + 1] == LF {
        len := s + 2;
        assert BlankLineAt(text, s);
      } else if buf[s] == LF && s + 1 < e && buf[s + 1] == CR && buf[s + 2] == LF {
        len := s + 3;
        assert BlankLineAt(text, s);
      }
      s := s + 1;
    }
    if len <= 0 {
      assert forall q :: 0 <= q < buflen ==> !BlankLineAt(text, q);
    }
  }

  // ---- Reading in pieces ----

  /** The first answer other than 0 to the prefixes that have come after each read. */
  function FirstAnswer(all: seq<Byte>, cuts: seq<nat>): int
    requires forall i :: 0 <= i < |cuts| ==> cuts[i] <= |all|
  {
    if cuts == [] then 0
    else if RequestLen(all[..cuts[0]]) != 0 then RequestLen(all[..cuts[0]])
    else FirstAnswer(all, cuts[1..])
  }

  lemma {:induction false} FirstAnswerSnoc(all: seq<Byte>, cuts: seq<nat>, n: nat)
    requires forall i :: 0 <= i < |cuts| ==> cuts[i] <= |all|
    requires n <= |all| && FirstAnswer(all, cuts) == 0
    ensures FirstAnswer(all, cuts + [n]) == RequestLen(all[..n])
  {
    if cuts != [] {
      assert (cuts + [n])[1..] == cuts[1..] + [n];
      FirstAnswerSnoc(all, cuts[1..], n);
    }
  }

  // What had come after each read, from n0 bytes before the first to n after the last.
  predicate CutsFromTo(cuts: seq<nat>, n0: nat, n: nat) {
    && n0 <= n
    && (forall i :: 0 <= i < |cuts| ==> n0 < cuts[i] <= n)
    && (if cuts == [] then n == n0 else cuts[|cuts| - 1] == n)
  }

  // The answer after these reads.
  predicate Answered(all: seq<Byte>, cuts: seq<nat>, n0: nat, n: nat, len: int) {
    CutsFromTo(cuts, n0, n) && n <= |all| && len == FirstAnswer(all, cuts)
  }

  lemma AnswersGoOn(all: seq<Byte>, cuts: seq<nat>, n0: nat, n: nat, m: nat)
    requires Answered(all, cuts, n0, n, 0) && n < m <= |all|
    ensures Answered(all, cuts + [m], n0, m, RequestLen(all[..m]))
  {
    hide FirstAnswer, RequestLen;
    FirstAnswerSnoc(all, cuts, m);
  }

  /** read_request: reads until there is a head, the buffer is full, or nothing more comes. The ghost result
      lists how much had come after each read. */
  method ReadRequest(sock: Socket, buf: array<Byte>, bufsiz: nat, nread0: nat)
    returns (requestLen: int, nread: nat, ghost cuts: seq<nat>)
    requires nread0 <= bufsiz <= buf.Length
    modifies sock, buf
    ensures var all := old(buf[..nread0] + sock.incoming);
      && nread0 <= nread <= bufsiz && nread <= |all|
      && buf[..nread] == all[..nread] && sock.incoming == all[nread..]
      && Answered(all, cuts, nread0, nread, requestLen)
    // It gives up only on a full buffer, or when a pull gives nothing
    ensures requestLen == 0 && nread < bufsiz ==> NothingGiven(old(sock.plan), sock.plan, sock.incoming)
  {
    requestLen, nread, cuts := 0, nread0, [];
    ghost var given := sock.plan;
    hide IsTail, FirstAnswer, RequestLen, NothingGiven, Least, Answered;
    ghost var all := buf[..nread0] + sock.incoming;
    NothingAnswered(all, nread0, given);
    assert all[..nread] == buf[..nread];
    while nread < bufsiz && requestLen == 0
      invariant nread0 <= nread <= bufsiz && nread <= |all|
      invariant buf[..nread] == all[..nread] && sock.incoming == all[nread..]
      invariant Answered(all, cuts, nread0, nread, requestLen) && IsTail(given, sock.plan)
      decreases bufsiz - nread
    {
      ghost var plan := sock.plan;
      PlanGoesOn(given, plan);
      var n := ReadMore(sock, buf, bufsiz, nread, all);
      if n <= 0 {
        assert |sock.incoming| == |all| - nread;
        GaveNothing(given, plan, sock.incoming, bufsiz - nread);
        break;
      }
      nread := nread + n;
      requestLen := GetRequestLen(buf, nread);
      AnswersGoOn(all, cuts, nread0, nread - n, nread);
      cuts := cuts + [nread];
    }
  }

  /** One pull into the free part of the buffer. */
  method ReadMore(sock: Socket, buf: array<Byte>, bufsiz: nat, nread: nat, ghost all: seq<Byte>) returns (n: int)
    requires nread < bufsiz <= buf.Length && nread <= |all| && buf[..nread] == all[..nread]
      && sock.incoming == all[nread..]
    modifies sock, buf
    ensures n <= bufsiz - nread && n <= |all| - nread
    ensures n == if old(sock.plan) == [] then 0 else Least(old(sock.plan)[0], bufsiz - nread, |all| - nread)
    ensures sock.plan == if old(sock.plan) == [] then [] else old(sock.plan)[1..]
    ensures var m := if n > 0 then nread + n else nread; buf[..m] == all[..m] && sock.incoming == all[m..]
  {
    var data;
    n, data := sock.Pull(bufsiz - nread);
    if n > 0 {
      ghost var m := nread + n;
      assert all[nread..] == data + sock.incoming;
      Continues(all, nread, data, sock.incoming);
      CopyTo(buf, nread, data);
      assert buf[..m] == all[..nread] + data;
    }
  }

  lemma Continues(all: seq<Byte>, n: nat, data: seq<Byte>, rest: seq<Byte>)
    requires n <= |all| && all[n..] == data + rest
    ensures n + |data| <= |all| && all[..n + |data|] == all[..n] + data && all[n + |data|..] == rest
  {
    assert all == all[..n] + (data + rest);
  }

  lemma NothingAnswered(all: seq<Byte>, n0: nat, plan: seq<int>)
    requires n0 <= |all|
    ensures Answered(all, [], n0, n0, 0) && IsTail(plan, plan)
  {
  }

  predicate IsTail(s: seq<int>, t: seq<int>) { |t| <= |s| && s[|s| - |t|..] == t }

  lemma PlanGoesOn(s: seq<int>, t: seq<int>)
    requires IsTail(s, t)
    ensures t != [] ==> IsTail(s, t[1..]) && s[|s| - |t|] == t[0]
  {
  }

  /** The last of the pulls that were made gave nothing: the stream is at its end, or the plan is, or it said so. */
  predicate NothingGiven(before: seq<int>, plan: seq<int>, incoming: seq<Byte>) {
    && IsTail(before, plan)
    && (incoming == [] || plan == [] || (|plan| < |before| && before[|before| - |plan| - 1] <= 0))
  }

  lemma GaveNothing(before: seq<int>, plan: seq<int>, incoming: seq<Byte>, room: nat)
    requires IsTail(before, plan) && room > 0 && (plan == [] || Least(plan[0], room, |incoming|) <= 0)
    ensures NothingGiven(before, if plan == [] then [] else plan[1..], incoming)
  {
  }

  /** With no illegal byte in the head, however the reads cut the stream, the answer is the head's length once
      it has come, and 0 before. */
  lemma {:induction false} AnyChunking(all: seq<Byte>, cuts: seq<nat>)
    requires RequestLen(all) > 0 && forall i :: 0 <= i < RequestLen(all) ==> !Illegal(all[i])
    requires forall i :: 0 <= i < |cuts| ==> cuts[i] <= |all|
    ensures FirstAnswer(all, cuts)
      == if exists i :: 0 <= i < |cuts| && cuts[i] >= RequestLen(all) then RequestLen(all) else 0
  {
    EarliestBlankLine(all);
    if cuts != [] {
      var n := cuts[0];
      if n < RequestLen(all) {
        NoEarlierEnd(all, n);
        AnyChunking(all, cuts[1..]);
        if i :| 0 <= i < |cuts| && cuts[i] >= RequestLen(all) {
          assert cuts[1..][i - 1] == cuts[i];
        }
      } else {
        CompleteHead(all, n);
        assert cuts[0] >= RequestLen(all);
      }
    }
  }

  lemma CompleteHead(all: seq<Byte>, n: nat)
    requires RequestLen(all) > 0 && RequestLen(all) <= n <= |all|
    ensures RequestLen(all[..n]) == RequestLen(all)
  {
    FirstBlankLineIsFirst(all, 0);
    var p := FirstBlankLine(all, 0);
    assert BlankLineAt(all[..n], p);
    EarliestBlankLine(all[..n]);
    StableLength(all[..n], all[n..]);
    assert all[..n] + all[n..] == all;
  }

  /** That is exactly the condition: with an illegal byte in the head, some way to cut it gets -1. */
  lemma ChunkingMatters(all: seq<Byte>, i: nat) returns (cuts: seq<nat>)
    requires RequestLen(all) > 0 && i < RequestLen(all) && i < |all| && Illegal(all[i])
    ensures |cuts| == 2 && cuts[0] < cuts[1] == |all|
    ensures FirstAnswer(all, cuts) == -1 && FirstAnswer(all, [|all|]) == RequestLen(all) > 0
  {
    EarliestBlankLine(all);
    assert all[..|all|] == all;
    // The last bytes of a head are line ends
    assert i + 2 < RequestLen(all);
    NoEarlierEnd(all, i + 2);
    cuts := [i + 2, |all|];
  }
}
