// Delivering the body of a request: first what came with the head, then what the socket sends.
module BodyReader {
  import opened Bytes
  import opened Sockets

  // ---- What a socket delivers ----

  // How many of `left` bytes a loop of pulls gets that wants len bytes, and what is then left of the socket's plan: it
  // goes on until it has them or a pull gives none.
  datatype Pulls = Pulls(got: nat, plan: seq<int>)

  function PullAll(plan: seq<int>, left: nat, len: nat): (r: Pulls)
    ensures r.got <= len && r.got <= left
    decreases |plan|
  {
    if len == 0 || plan == [] then Pulls(0, plan)
    else
      var n := Least(plan[0], len, left);
      if n <= 0 then Pulls(0, plan[1..])
      else
        var more := PullAll(plan[1..], left - n, len - n);
        Pulls(n + more.got, more.plan)
  }

  lemma PullStep(plan: seq<int>, left: nat, len: nat)
    ensures PullAll(plan, left, len) ==
      if len == 0 || plan == [] then Pulls(0, plan)
      else if Least(plan[0], len, left) <= 0 then Pulls(0, plan[1..])
      else
        var n: nat := Least(plan[0], len, left);
        var more := PullAll(plan[1..], left - n, len - n);
        Pulls(n + more.got, more.plan)
  {
  }

  /** Every pull gives something, as long as there are bytes. */
  predicate Generous(plan: seq<int>, left: nat) {
    left <= |plan| && forall i :: 0 <= i < |plan| ==> plan[i] > 0
  }

  function Lesser(a: int, b: int): int { if a < b then a else b }

  /** From such a socket the loop gets everything it wants or that there is. */
  lemma {:induction false} GenerousGives(plan: seq<int>, left: nat, len: nat)
    requires Generous(plan, left)
    ensures var r := PullAll(plan, left, len); r.got == Lesser(len, left) && Generous(r.plan, left - r.got)
    decreases |plan|
  {
    if len > 0 && plan != [] {
      var n := Least(plan[0], len, left);
      if n > 0 {
        assert Generous(plan[1..], left - n);
        GenerousGives(plan[1..], left - n, len - n);
      }
    }
  }

  /** It stops short only when a pull gives nothing: the plan is used up, or says so, or the stream is at its end. */
  lemma {:induction false} StopsShort(plan: seq<int>, left: nat, len: nat)
    requires PullAll(plan, left, len).got < len
    ensures |plan| < len || PullAll(plan, left, len).got == left || exists i ::
      0 <= i < |plan| && i < len && plan[i] <= 0
    decreases |plan|
  {
    if plan != [] {
      var n := Least(plan[0], len, left);
      if n > 0 {
        StopsShort(plan[1..], left - n, len - n);
        if i :| 0 <= i < |plan[1..]| && i < len - n && plan[1..][i] <= 0 {
          assert plan[i + 1] <= 0;
        }
      } else if plan[0] <= 0 {
      }
    }
  }

  function Sum(lens: seq<nat>): nat { if lens == [] then 0 else Sum(lens[..|lens| - 1]) + lens[|lens| - 1] }

  class Connection {
    const buf: array<Byte>
    const requestLen: nat
    const dataLen: nat
    const isPost: bool
    // The value of the Content-Length header, or -1 without one.
    const contentLen: int
    const sock: Socket
    var consumedContent: int
    // What has been handed out so far, and everything that ever was or will be there to hand out.
    ghost var delivered: seq<Byte>
    ghost const body: seq<Byte>

    ghost predicate Valid()
      reads this, buf, sock
    {
      && requestLen <= dataLen <= buf.Length
      && (contentLen == -1 || 0 <= consumedContent <= contentLen)
      && consumedContent == |delivered| <= |body|
      && delivered == body[..consumedContent]
      && dataLen - requestLen <= |body| && buf[requestLen..dataLen] == body[..dataLen - requestLen]
      && (if consumedContent < dataLen - requestLen then sock.incoming == body[dataLen - requestLen..]
          else sock.incoming == body[consumedContent..])
    }

    /** A connection whose head has been read. A negative length other than -1 fails mg_read's assertion. */
    constructor (buf0: array<Byte>, requestLen0: nat, dataLen0: nat, isPost0: bool, contentLen0: int, sock0: Socket)
      requires requestLen0 <= dataLen0 <= buf0.Length && contentLen0 >= -1
      ensures Valid() && delivered == [] && body == buf0[requestLen0..dataLen0] + sock0.incoming
      ensures buf == buf0 && sock == sock0 && contentLen == contentLen0 && isPost == isPost0
    {
      buf, requestLen, dataLen, isPost, contentLen, sock := buf0, requestLen0, dataLen0, isPost0, contentLen0, sock0;
      consumedContent, delivered, body := 0, [], buf0[requestLen0..dataLen0] + sock0.incoming;
    }

    /** The bytes that came with the head and have not been handed out. */
    function BufferedLeft(): nat
      reads this
    {
      if consumedContent < dataLen - requestLen then dataLen - requestLen - consumedContent else 0
    }

    /** How many bytes the socket gives to a read that wants len of them. */
    ghost function FromSocket(len: nat): Pulls
      reads this, sock
    {
      if len <= BufferedLeft() then Pulls(0, sock.plan) else PullAll(sock.plan, |sock.incoming|, len - BufferedLeft())
    }

    /** mg_read: up to len0 bytes. As many as are asked for and left of the announced length: first what came with the
        head, then what the socket gives until a pull gives nothing. */
    method Read(len0: nat) returns (data: seq<Byte>)
      requires Valid()
      modifies this, sock
      ensures Valid() && delivered == old(delivered) + data && |data| <= len0
      ensures contentLen == -1 || !isPost ==> data == [] && sock.plan == old(sock.plan)
      ensures isPost && contentLen != -1 ==>
        var len := Lesser(len0, contentLen - old(consumedContent));
        && |data| == Lesser(len, old(BufferedLeft()) + old(FromSocket(Lesser(len0, contentLen - consumedContent))).got)
        && sock.plan == old(FromSocket(Lesser(len0, contentLen - consumedContent))).plan
      // So, as long as pulls give something, everything that is wanted and there
      ensures isPost && contentLen != -1 && old(Generous(sock.plan, |sock.incoming|)) ==>
        && Generous(sock.plan, |sock.incoming|)
        && |data| == Lesser(Lesser(len0, contentLen - old(consumedContent)), |body| - old(consumedContent))
      ensures isPost && len0 > 0 && old(consumedContent) < contentLen && old(consumedContent) < dataLen - requestLen
        ==> data != []
    {
      hide PullAll, Generous;
      data := [];
      if contentLen == -1 {
        return;
      }
      ghost var plan, left, want := sock.plan, |sock.incoming|, Lesser(len0, contentLen - consumedContent);
      ghost var buffered := BufferedLeft();
      SocketGives(plan, left, want, buffered);
      if isPost && consumedContent < contentLen {
        // no more than what is left of the body
        var toRead := contentLen - consumedContent;
        var len := if toRead < len0 then toRead else len0;
        // first the part of the body that came with the head
        data := ReadBuffered(len);
        len := len - |data|;
        // then what the connection delivers
        var more := ReadSocket(len);
        data := data + more;
      }
    }

    method ReadBuffered(len: nat) returns (data: seq<Byte>)
      requires Valid() && contentLen != -1 && len <= contentLen - consumedContent
      modifies this
      ensures Valid() && delivered == old(delivered) + data && |data| == Lesser(len, old(BufferedLeft()))
      ensures |data| < len ==> consumedContent >= dataLen - requestLen
    {
      data := [];
      var bufferedLen := dataLen - requestLen;
      if consumedContent < bufferedLen {
        bufferedLen := bufferedLen - consumedContent;
        if len < bufferedLen {
          bufferedLen := len;
        }
        var from := requestLen + consumedContent;
        data := buf[from..from + bufferedLen];
        SliceOfSlice(buf[..], requestLen, dataLen, consumedContent, bufferedLen);
        SliceOfSlice(body, 0, dataLen - requestLen, consumedContent, bufferedLen);
        assert data == body[consumedContent..consumedContent + bufferedLen];
        consumedContent, delivered := consumedContent + bufferedLen, delivered + data;
      }
    }

    method ReadSocket(len0: nat) returns (data: seq<Byte>)
      requires Valid() && contentLen != -1 && len0 <= contentLen - consumedContent
      requires len0 > 0 ==> consumedContent >= dataLen - requestLen
      modifies this, sock
      ensures Valid() && delivered == old(delivered) + data
      ensures Pulls(|data|, sock.plan) == old(PullAll(sock.plan, |sock.incoming|, len0))
      ensures |sock.incoming| == old(|sock.incoming|) - |data|
    {
      hide PullAll;
      data := [];
      var len := len0;
      ghost var all := PullAll(sock.plan, |sock.incoming|, len0);
      while len > 0
        invariant 0 <= len == len0 - |data| && len <= contentLen - consumedContent
        invariant len0 > 0 ==> consumedContent >= dataLen - requestLen
        invariant Valid() && delivered == old(delivered) + data && |sock.incoming| == old(|sock.incoming|) - |data|
        invariant var more := PullAll(sock.plan, |sock.incoming|, len); all == Pulls(|data| + more.got, more.plan)
        decreases len
      {
        PullStep(sock.plan, |sock.incoming|, len);
        var n, piece := sock.Pull(len);
        if n <= 0 {
          break;
        }
        consumedContent, delivered := consumedContent + n, delivered + piece;
        data := data + piece;
        len := len - n;
      }
      PullStep(sock.plan, |sock.incoming|, len);
    }
  }

  lemma SocketGives(plan: seq<int>, left: nat, want: int, buffered: nat)
    ensures PullAll(plan, left, 0) == Pulls(0, plan)
    ensures want > buffered && Generous(plan, left) ==>
      var r := PullAll(plan, left, want - buffered);
      r.got == Lesser(want - buffered, left) && Generous(r.plan, left - r.got)
  {
    if want > buffered && Generous(plan, left) {
      GenerousGives(plan, left, want - buffered);
    }
  }

  /** Any sequence of reads of any sizes: what they return, one after the other, is a beginning of the body,
      and no more than its announced length. If pulls give something as long as there are bytes, it is all that was
      asked for, announced and there: reads for at least the announced length return the whole body. */
  method ReadAll(conn: Connection, lens: seq<nat>) returns (data: seq<Byte>)
    requires conn.Valid() && conn.delivered == []
    modifies conn, conn.sock
    ensures conn.Valid() && data <= conn.body && conn.consumedContent == |data|
    ensures |data| <= if conn.contentLen == -1 then 0 else conn.contentLen
    ensures conn.isPost && conn.contentLen != -1 && old(Generous(conn.sock.plan, |conn.sock.incoming|)) ==>
      data == conn.body[..Lesser(Sum(lens), Lesser(conn.contentLen, |conn.body|))]
  {
    hide Generous, PullAll;
    data := [];
    var i := 0;
    ghost var generous := Generous(conn.sock.plan, |conn.sock.incoming|);
    assert lens[..0] == [];
    while i < |lens|
      invariant i <= |lens| && conn.Valid() && conn.delivered == data
      invariant conn.contentLen == -1 ==> data == []
      invariant conn.isPost && conn.contentLen != -1 && generous ==>
        && Generous(conn.sock.plan, |conn.sock.incoming|)
        && |data| == Lesser(Sum(lens[..i]), Lesser(conn.contentLen, |conn.body|))
    {
      assert lens[..i + 1][..i] == lens[..i];
      var piece := conn.Read(lens[i]);
      data := data + piece;
      i := i + 1;
    }
    assert lens[..i] == lens;
  }
}
