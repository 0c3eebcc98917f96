// Sending keys to the server: one request at a time, everything typed meanwhile is kept for the next one.
module KeySenderSpec {
  // Keys travel as hexadecimal digits.
  type Digit = d: int | 0 <= d < 16
  type Keys = seq<Digit>

  // The fields of ShellInABox that matter for keys, and what can be seen from outside: the payloads sent and
  // the keys offered while connected since the last reconnect, the key requests sent since then that are not
  // complete, those from before it, and how many of the latter have completed after it.
  datatype Client = Client(
    connected: bool, session: bool, pendingKeys: Keys, keysInFlight: bool,
    sent: seq<Keys>, offered: Keys, open: nat, stale: nat, late: nat)

  datatype Event =
    | Press(keys: Keys)         // keys are typed
    | Resize                    // the window changes its size
    | Complete                  // a key request sent since the last reconnect completes
    | CompleteStale             // one sent before it completes
    | Response(sessionOk: bool) // output comes, for this session or not
    | Close                     // the session is closed
    | Reconnect                 // the user connects again

  const INITIAL := Client(false, false, [], false, [], [], 0, 0, 0)

  function SendKeys(c: Client, keys: Keys): Client {
    if !c.connected then c
    else if c.keysInFlight || !c.session then c.(pendingKeys := c.pendingKeys + keys, offered := c.offered + keys)
    else c.(keysInFlight := true, sent := c.sent + [c.pendingKeys + keys], pendingKeys := [],
      offered := c.offered + keys, open := c.open + 1)
  }

  /** The handler of a key request's completion. */
  function Completed(c: Client): Client {
    var d := c.(keysInFlight := false);
    if d.pendingKeys != [] then SendKeys(d, []) else d
  }

  function SessionClosed(c: Client): Client { c.(connected := false, session := false) }

  function Handle(c: Client, e: Event): Client {
    match e
    case Press(keys) => SendKeys(c, keys)
    case Resize => if c.session then SendKeys(c, []) else c
    case Complete => if c.open > 0 then Completed(c.(open := c.open - 1)) else c
    case CompleteStale => if c.stale > 0 then Completed(c.(stale := c.stale - 1, late := c.late + 1)) else c
    case Response(sessionOk) => if sessionOk then c.(connected := true, session := true) else SessionClosed(c)
    case Close => SessionClosed(c)
    case Reconnect =>
      if c.session then c
      else Client(c.connected, false, [], false, [], [], 0, c.stale + c.open, 0)
  }

  function HandleAll(c: Client, es: seq<Event>): Client {
    if es == [] then c else Handle(HandleAll(c, es[..|es| - 1]), es[|es| - 1])
  }

  function Concat(ps: seq<Keys>): Keys {
    if ps == [] then [] else Concat(ps[..|ps| - 1]) + ps[|ps| - 1]
  }

  lemma ConcatSnoc(ps: seq<Keys>, p: Keys)
    ensures Concat(ps + [p]) == Concat(ps) + p
  {
    assert (ps + [p])[..|ps|] == ps;
  }

  predicate Conserved(c: Client) { Concat(c.sent) + c.pendingKeys == c.offered }

  // A request is open whenever the flag says so, and no more than that unless stale requests completed.
  predicate Flight(c: Client) {
    (c.keysInFlight ==> c.open > 0) && c.open <= (if c.keysInFlight then 1 else 0) + c.late
  }

  lemma SendConserves(c: Client, keys: Keys)
    requires Conserved(c)
    ensures Conserved(SendKeys(c, keys))
  {
    ConcatSnoc(c.sent, c.pendingKeys + keys);
    assert Concat(c.sent) + (c.pendingKeys + keys) == Concat(c.sent) + c.pendingKeys + keys;
    assert Concat(c.sent) + c.pendingKeys + keys + [] == Concat(c.sent) + c.pendingKeys + keys;
  }

  lemma HandleConserves(c: Client, e: Event)
    requires Conserved(c)
    ensures Conserved(Handle(c, e))
  {
    match e
    case Press(keys) => SendConserves(c, keys);
    case Resize => SendConserves(c, []);
    case Complete => SendConserves(c.(open := if c.open > 0 then c.open - 1 else 0, keysInFlight := false), []);
    case CompleteStale =>
      SendConserves(c.(stale := if c.stale > 0 then c.stale - 1 else 0, late := c.late + 1, keysInFlight := false), []);
    case Response(_) =>
    case Close =>
    case Reconnect =>
  }

  /** Nothing is lost, doubled or reordered: for every interleaving of events the payloads sent since the last
      reconnect and the keys still waiting are together the keys offered while connected, in their order. */
  lemma {:induction false} KeysConserved(es: seq<Event>)
    ensures Conserved(HandleAll(INITIAL, es))
  {
    if es != [] {
      KeysConserved(es[..|es| - 1]);
      HandleConserves(HandleAll(INITIAL, es[..|es| - 1]), es[|es| - 1]);
    }
  }

  lemma HandleKeepsFlight(c: Client, e: Event)
    requires Flight(c)
    ensures Flight(Handle(c, e))
    ensures e != CompleteStale && e != Reconnect ==> Handle(c, e).late == c.late && Handle(c, e).stale == c.stale
    ensures e == CompleteStale && c.stale == 0 ==> Handle(c, e) == c
  {
  }

  /** At most one key request is open at a time, plus one for each request from before the last reconnect that
      completed after it: its completion is taken for that of the current request. */
  lemma {:induction false} RequestsInFlight(es: seq<Event>)
    ensures var c := HandleAll(INITIAL, es); c.open <= 1 + c.late && Flight(c)
  {
    if es != [] {
      RequestsInFlight(es[..|es| - 1]);
      HandleKeepsFlight(HandleAll(INITIAL, es[..|es| - 1]), es[|es| - 1]);
    }
  }

  /** So, as long as no request from before the last reconnect is still on its way, there is at most one. */
  lemma {:induction false} AtMostOneInFlight(c: Client, es: seq<Event>)
    requires Flight(c) && c.stale == 0 && c.late == 0 && Reconnect !in es
    ensures var d := HandleAll(c, es); d.stale == 0 && d.late == 0 && Flight(d)
    ensures HandleAll(c, es).open <= 1
  {
    if es != [] {
      hide Handle, Flight;
      AtMostOneInFlight(c, es[..|es| - 1]);
      HandleKeepsFlight(HandleAll(c, es[..|es| - 1]), es[|es| - 1]);
    }
    assert Flight(HandleAll(c, es)) ==> HandleAll(c, es).open <= 1 + HandleAll(c, es).late by {
      FlightBound(HandleAll(c, es));
    }
  }

  lemma FlightBound(c: Client)
    requires Flight(c)
    ensures c.open <= 1 + c.late
  {
  }

  /** There is at most one key request at any time until the next reconnect if and only if there is no more than the
      one that the flag tells of, and none from before the last reconnect is still on its way. */
  lemma AtMostOneIff(c: Client)
    requires Flight(c)
    ensures (forall es :: Reconnect !in es ==> HandleAll(c, es).open <= 1)
      <==> c.stale == 0 && c.open <= if c.keysInFlight then 1 else 0
  {
    if c.stale == 0 && c.open <= if c.keysInFlight then 1 else 0 {
      forall es | Reconnect !in es ensures HandleAll(c, es).open <= 1 {
        OnlyFlagged(c, es);
      }
    } else {
      var es := SecondRequest(c);
    }
  }

  // The flag tells of every open request, and no other completion can be taken for one.
  lemma {:induction false} OnlyFlagged(c: Client, es: seq<Event>)
    requires c.stale == 0 && c.open == (if c.keysInFlight then 1 else 0) && Reconnect !in es
    ensures var d := HandleAll(c, es); d.stale == 0 && d.open == if d.keysInFlight then 1 else 0
  {
    hide Handle;
    if es != [] {
      OnlyFlagged(c, es[..|es| - 1]);
      StaysFlagged(HandleAll(c, es[..|es| - 1]), es[|es| - 1]);
    }
  }

  lemma StaysFlagged(c: Client, e: Event)
    requires c.stale == 0 && c.open == (if c.keysInFlight then 1 else 0) && e != Reconnect
    ensures var d := Handle(c, e); d.stale == 0 && d.open == if d.keysInFlight then 1 else 0
  {
  }

  /** Otherwise output and at most three more events lead to a second request. */
  lemma SecondRequest(c: Client) returns (es: seq<Event>)
    requires Flight(c) && (c.stale > 0 || c.open > if c.keysInFlight then 1 else 0)
    ensures Reconnect !in es && HandleAll(c, es).open >= 2
  {
    var k: Keys := [];
    es := [Response(true)];
    HandleOne(c, Response(true));
    HandleSnoc(c, es, Press(k));
    es := es + [Press(k)];
    var d := HandleAll(c, es);
    if d.open < 2 {
      HandleSnoc(c, es, CompleteStale);
      HandleSnoc(c, es + [CompleteStale], Press(k));
      es := es + [CompleteStale] + [Press(k)];
    }
    hide HandleAll;
  }

  lemma HandleOne(c: Client, e: Event)
    ensures HandleAll(c, [e]) == Handle(c, e)
  {
    assert [e][..0] == [];
  }

  lemma HandleSnoc(c: Client, es: seq<Event>, e: Event)
    ensures HandleAll(c, es + [e]) == Handle(HandleAll(c, es), e)
  {
    assert (es + [e])[..|es|] == es;
  }

  lemma OneMore(es: seq<Event>, e: Event) returns (more: seq<Event>)
    ensures HandleAll(INITIAL, more) == Handle(HandleAll(INITIAL, es), e)
  {
    HandleSnoc(INITIAL, es, e);
    more := es + [e];
  }

  /** k sessions in each of which a key is sent and the session ends before its request completes. */
  lemma {:induction false} StaleRequests(key: Keys, k: nat) returns (es: seq<Event>)
    ensures HandleAll(INITIAL, es) == INITIAL.(stale := k)
  {
    if k == 0 {
      es := [];
    } else {
      es := StaleRequests(key, k - 1);
      hide HandleAll;
      es := OneMore(es, Response(true));
      es := OneMore(es, Press(key));
      es := OneMore(es, Close);
      es := OneMore(es, Reconnect);
    }
  }

  /** In the next session each of them can let one more request out: the bound on open requests is reached. */
  lemma {:induction false} OpenBoundReached(key: Keys, k: nat, n: nat) returns (es: seq<Event>)
    requires n <= k
    ensures var c := HandleAll(INITIAL, es);
      && c.open == 1 + n && c.late == n && c.stale == k - n
      && c.connected && c.session && c.keysInFlight && c.pendingKeys == []
  {
    if n == 0 {
      es := StaleRequests(key, k);
      hide HandleAll;
      es := OneMore(es, Response(true));
      es := OneMore(es, Press(key));
    } else {
      es := OpenBoundReached(key, k, n - 1);
      hide HandleAll;
      es := OneMore(es, CompleteStale);
      es := OneMore(es, Press(key));
    }
  }

  /** Two connections in which two requests are open at the same time. */
  lemma TwoRequests(key: Keys) returns (es: seq<Event>)
    ensures HandleAll(INITIAL, es).open == 2
  {
    hide HandleAll;
    es := OpenBoundReached(key, 1, 1);
  }

  // ---- When keys are sent ----

  /** A completion sends everything that is waiting: all keys offered so far have then been sent. */
  lemma CompletionSendsAll(c: Client, e: Event)
    requires Conserved(c) && c.connected && c.session
    requires (e == Complete && c.open > 0) || (e == CompleteStale && c.stale > 0)
    ensures var d := Handle(c, e); d.pendingKeys == [] && Concat(d.sent) == d.offered == c.offered
  {
    HandleConserves(c, e);
    hide Conserved, Concat;
    var d := Handle(c, e);
    assert c.offered + [] == c.offered;
    NothingPending(d);
  }

  /** So does a key when no request is open; otherwise it waits. */
  lemma PressSendsAll(c: Client, keys: Keys)
    requires Conserved(c) && Flight(c) && c.connected && c.session && c.late == 0
    ensures var d := Handle(c, Press(keys));
      && d.offered == c.offered + keys
      && (Concat(d.sent) == d.offered && d.pendingKeys == [] && |d.sent| == |c.sent| + 1 <==> c.open == 0)
      && (c.open > 0 ==> d.sent == c.sent)
  {
    HandleConserves(c, Press(keys));
    hide Conserved, Concat;
    NothingPending(Handle(c, Press(keys)));
  }

  /** A resize sends what is waiting, or an empty payload, when there is a session and the line is free. */
  lemma ResizeSends(c: Client)
    requires Conserved(c) && c.connected
    ensures var d := Handle(c, Resize);
      if c.session && !c.keysInFlight then
        d.pendingKeys == [] && Concat(d.sent) == d.offered == c.offered && |d.sent| == |c.sent| + 1 && d.keysInFlight
      else d.sent == c.sent && d.pendingKeys == c.pendingKeys
  {
    HandleConserves(c, Resize);
    hide Conserved, Concat;
    assert c.offered + [] == c.offered && c.pendingKeys + [] == c.pendingKeys;
    NothingPending(Handle(c, Resize));
  }

  lemma NothingPending(c: Client)
    requires Conserved(c)
    ensures c.pendingKeys == [] ==> Concat(c.sent) == c.offered
  {
  }

  /** After the session is closed, nothing is sent and nothing is kept until output comes or the user connects again. */
  lemma {:induction false} NothingSentWhileClosed(c: Client, es: seq<Event>)
    requires Reconnect !in es && Response(true) !in es
    ensures var d, e := SessionClosed(c), HandleAll(SessionClosed(c), es);
      e.sent == d.sent && e.offered == d.offered && e.pendingKeys == d.pendingKeys && !e.connected && !e.session
  {
    if es != [] {
      hide Handle;
      NothingSentWhileClosed(c, es[..|es| - 1]);
      ClosedStep(HandleAll(SessionClosed(c), es[..|es| - 1]), es[|es| - 1]);
    }
  }

  lemma ClosedStep(c: Client, e: Event)
    requires !c.connected && !c.session && e != Reconnect && e != Response(true)
    ensures var d := Handle(c, e);
      d.sent == c.sent && d.offered == c.offered && d.pendingKeys == c.pendingKeys && !d.connected && !d.session
  {
  }

  // ---- The encoding of keys ----

  // A UTF-16 code unit.
  type CodeUnit = n: int | 0 <= n < 0x1_0000

  /** What keysPressed sends for one code unit. From 0x800 on, a sum is masked where a part of it was meant. */
  function KeyDigits(c: CodeUnit): Keys {
    if c < 128 then [c / 16, c % 16]
    else if c < 0x800 then [12 + c / 0x400, c / 0x40 % 16, 8 + c / 16 % 4, c % 16]
    else [14, c / 0x1000, (8 + c / 0x400) % 4, c / 0x40 % 16, 8 + c / 16 % 4, c % 16]
  }

  /** The UTF-8 bytes of a code point below 0x10000 (RFC 3629 section 3). */
  function Utf8Bytes(c: CodeUnit): seq<nat> {
    if c < 0x80 then [c]
    else if c < 0x800 then [0xC0 + c / 0x40, 0x80 + c % 0x40]
    else [0xE0 + c / 0x1000, 0x80 + c / 0x40 % 0x40, 0x80 + c % 0x40]
  }

  function ByteDigits(b: nat): Keys
    requires b < 0x100
  {
    [b / 16, b % 16]
  }

  function AllDigits(bs: seq<nat>): Keys
    requires forall i :: 0 <= i < |bs| ==> bs[i] < 0x100
  {
    if bs == [] then [] else ByteDigits(bs[0]) + AllDigits(bs[1..])
  }

  lemma TwoBytes(bs: seq<nat>)
    requires |bs| == 2 && bs[0] < 0x100 && bs[1] < 0x100
    ensures AllDigits(bs) == ByteDigits(bs[0]) + ByteDigits(bs[1])
  {
    assert AllDigits(bs[1..]) == ByteDigits(bs[1]) + AllDigits([]);
  }

  lemma LeadDigits(c: nat)
    requires c < 0x800
    ensures (0xC0 + c / 0x40) / 16 == 12 + c / 0x400 && (0xC0 + c / 0x40) % 16 == c / 0x40 % 16
  {
    var h := c / 0x40;
    assert c / 0x400 == h / 16;
    assert 0xC0 + h == 16 * (12 + h / 16) + h % 16;
  }

  lemma TrailDigits(c: nat)
    ensures (0x80 + c % 0x40) / 16 == 8 + c / 16 % 4 && (0x80 + c % 0x40) % 16 == c % 16
  {
    var l, q := c % 0x40, c / 0x40;
    assert c == 0x40 * q + l;
    assert c / 16 == 4 * q + l / 16 && c % 16 == l % 16;
    assert 0x80 + l == 16 * (8 + l / 16) + l % 16;
  }

  /** A key is sent as its UTF-8 bytes exactly when it is below 0x800. */
  lemma KeysAreUtf8Iff(c: CodeUnit)
    ensures KeyDigits(c) == AllDigits(Utf8Bytes(c)) <==> c < 0x800
  {
    var bs := Utf8Bytes(c);
    if c < 0x80 {
      assert AllDigits(bs) == ByteDigits(c) + AllDigits([]);
    } else if c < 0x800 {
      TwoBytes(bs);
      LeadDigits(c);
      TrailDigits(c);
    } else {
      assert AllDigits(bs)[2] == ByteDigits(bs[1])[0] >= 8;
      assert KeyDigits(c)[2] < 4;
    }
  }

  /** And from 0x800 on, one digit is wrong: the third lacks 8, and the five others are those of the UTF-8 bytes. */
  lemma ThirdDigitLacksEight(c: CodeUnit)
    requires c >= 0x800
    ensures var wanted := AllDigits(Utf8Bytes(c));
      |wanted| == 6 && wanted[2] >= 8 && KeyDigits(c) == wanted[2 := wanted[2] - 8]
  {
    ThreeBytes(Utf8Bytes(c));
    TrailDigits(c);
    TrailDigits(c / 0x40);
    assert (0xE0 + c / 0x1000) / 16 == 14 && (0xE0 + c / 0x1000) % 16 == c / 0x1000;
    assert c / 0x40 / 16 == c / 0x400;
  }

  lemma ThreeBytes(bs: seq<nat>)
    requires |bs| == 3 && forall i :: 0 <= i < |bs| ==> bs[i] < 0x100
    ensures AllDigits(bs) == [bs[0] / 16, bs[0] % 16, bs[1] / 16, bs[1] % 16, bs[2] / 16, bs[2] % 16]
  {
    TwoBytes(bs[1..]);
    assert AllDigits(bs) == ByteDigits(bs[0]) + AllDigits(bs[1..]);
  }
}

// The object in the browser.
module KeySenderClass {
  import opened KeySenderSpec

  class ShellInABox {
    var connected: bool
    // Whether `session` has a value.
    var session: bool
    var pendingKeys: Keys
    var keysInFlight: bool
    ghost var seen: Client

    // The fields, and what has been seen from outside.
    ghost function Abs(): Client
      reads this
    {
      seen.(connected := connected, session := session, pendingKeys := pendingKeys, keysInFlight := keysInFlight)
    }

    // Nothing is lost or reordered, and the flag tells of an open request.
    ghost predicate Valid()
      reads this
    {
      Conserved(Abs()) && Flight(Abs())
    }

    constructor ()
      ensures Valid() && Abs() == INITIAL
    {
      connected, session, pendingKeys, keysInFlight := false, false, [], false;
      seen := INITIAL;
    }

    method SendKeys(keys0: Keys)
      requires Valid()
      modifies this
      ensures Valid() && Abs() == KeySenderSpec.SendKeys(old(Abs()), keys0)
      // Keys are taken when there is a connection, and everything waiting goes out when the line is free
      ensures seen.offered == old(seen.offered) + if connected then keys0 else []
      ensures connected && session && !old(keysInFlight) ==> pendingKeys == [] && Concat(seen.sent) == seen.offered
      ensures !connected || !session || old(keysInFlight) ==> seen.sent == old(seen.sent)
    {
      SendConserves(Abs(), keys0);
      HandleKeepsFlight(Abs(), Press(keys0));
      NothingPending(KeySenderSpec.SendKeys(Abs(), keys0));
      hide Conserved, Flight, Concat;
      assert seen.offered + [] == seen.offered;
      if !connected {
        return;
      }
      if keysInFlight || !session {
        pendingKeys := pendingKeys + keys0;
        seen := seen.(offered := seen.offered + keys0);
      } else {
        keysInFlight := true;
        var keys := pendingKeys + keys0;
        pendingKeys := [];
        seen := seen.(sent := seen.sent + [keys], offered := seen.offered + keys0, open := seen.open + 1);
      }
    }

    /** The handler of a key request, which may be one from before the last reconnect: readyState 4 is its
        completion. */
    method KeyPressReadyStateChange(readyState: nat, ghost isStale: bool)
      requires Valid() && (readyState == 4 ==> if isStale then seen.stale > 0 else seen.open > 0)
      modifies this
      ensures Valid()
      ensures Abs() == if readyState == 4 then Handle(old(Abs()), if isStale then CompleteStale else Complete)
        else old(Abs())
      ensures readyState == 4 && connected && session ==> pendingKeys == [] && Concat(seen.sent) == seen.offered
    {
      if readyState == 4 {
        keysInFlight := false;
        seen := if isStale then seen.(stale := seen.stale - 1, late := seen.late + 1) else seen.(open := seen.open - 1);
        NothingPending(Abs());
        if pendingKeys != [] {
          SendKeys([]);
        }
      }
    }

    method KeysPressed(ch: seq<CodeUnit>)
      requires Valid()
      modifies this
      ensures Valid() && Abs() == Handle(old(Abs()), Press(PressedDigits(ch)))
    {
      var s: Keys := [];
      var i := 0;
      while i < |ch|
        invariant i <= |ch| && s == PressedDigits(ch[..i]) && Abs() == old(Abs())
      {
        assert ch[..i + 1][..i] == ch[..i];
        s := s + KeyDigits(ch[i]);
        i := i + 1;
      }
      assert ch[..i] == ch;
      SendKeys(s);
    }

    method Resized()
      requires Valid()
      modifies this
      ensures Valid() && Abs() == Handle(old(Abs()), Resize)
    {
      // A size that has changed goes out with every payload, so an empty one will do
      if session {
        SendKeys([]);
      }
    }

    method SessionClosed()
      requires Valid()
      modifies this
      ensures Valid() && Abs() == Handle(old(Abs()), Close)
      // and nothing is sent any more until there is a session again
      ensures forall es :: Event.Reconnect !in es && Response(true) !in es ==> HandleAll(Abs(), es).sent == seen.sent
    {
      ghost var c := Abs();
      connected := false;
      if session {
        session := false;
      }
      forall es | Event.Reconnect !in es && Response(true) !in es ensures HandleAll(Abs(), es).sent == seen.sent {
        NothingSentWhileClosed(c, es);
      }
    }

    method Reconnect()
      requires Valid()
      modifies this
      ensures Valid() && Abs() == Handle(old(Abs()), KeySenderSpec.Reconnect)
    {
      if !session {
        pendingKeys := [];
        keysInFlight := false;
        seen := Client(connected, false, [], false, [], [], 0, seen.stale + seen.open, 0);
      }
    }

    /** The handler of an output request that succeeded. */
    method OnResponse(sessionOk: bool)
      requires Valid()
      modifies this
      ensures Valid() && Abs() == Handle(old(Abs()), Response(sessionOk))
      ensures !sessionOk ==>
        forall es :: Event.Reconnect !in es && Response(true) !in es ==> HandleAll(Abs(), es).sent == seen.sent
    {
      connected := true;
      if !sessionOk {
        SessionClosed();
      } else {
        session := true;
      }
    }

    /** The browser's events, each with its handler: the object follows the machine, whatever comes. */
    method Dispatch(e: Event)
      requires Valid() && (e.Complete? ==> seen.open > 0) && (e.CompleteStale? ==> seen.stale > 0)
      modifies this
      ensures Valid() && Abs() == Handle(old(Abs()), e)
    {
      match e
      case Press(keys) => SendKeys(keys);
      case Resize => Resized();
      case Complete => KeyPressReadyStateChange(4, false);
      case CompleteStale => KeyPressReadyStateChange(4, true);
      case Response(sessionOk) => OnResponse(sessionOk);
      case Close => SessionClosed();
      case Reconnect => Reconnect();
    }
  }

  function PressedDigits(ch: seq<CodeUnit>): Keys {
    if ch == [] then [] else PressedDigits(ch[..|ch| - 1]) + KeyDigits(ch[|ch| - 1])
  }

  /** The UTF-8 form of text below 0x800. */
  function TextBytes(ch: seq<CodeUnit>): (bs: seq<nat>)
    requires forall i :: 0 <= i < |ch| ==> ch[i] < 0x800
    ensures forall i :: 0 <= i < |bs| ==> bs[i] < 0x100
  {
    if ch == [] then [] else Utf8Bytes(ch[0]) + TextBytes(ch[1..])
  }

  lemma {:induction false} DigitsAppend(a: seq<nat>, b: seq<nat>)
    requires (forall i :: 0 <= i < |a| ==> a[i] < 0x100) && forall i :: 0 <= i < |b| ==> b[i] < 0x100
    ensures AllDigits(a + b) == AllDigits(a) + AllDigits(b)
  {
    if a == [] {
      assert a + b == b;
    } else {
      assert (a + b)[1..] == a[1..] + b;
      DigitsAppend(a[1..], b);
    }
  }

  lemma {:induction false} PressedAppend(a: seq<CodeUnit>, b: seq<CodeUnit>)
    ensures PressedDigits(a + b) == PressedDigits(a) + PressedDigits(b)
  {
    hide KeyDigits;
    if b == [] {
      assert a + b == a;
    } else {
      assert (a + b)[..|a + b| - 1] == a + b[..|b| - 1];
      PressedAppend(a, b[..|b| - 1]);
    }
  }

  /** What is sent for keys below 0x800 are the hexadecimal digits of their UTF-8 form, in order. */
  lemma {:induction false} KeysAreText(ch: seq<CodeUnit>)
    requires forall i :: 0 <= i < |ch| ==> ch[i] < 0x800
    ensures PressedDigits(ch) == AllDigits(TextBytes(ch))
  {
    hide KeyDigits, Utf8Bytes;
    if ch != [] {
      KeysAreUtf8Iff(ch[0]);
      KeysAreText(ch[1..]);
      BytesAreBytes(ch[0]);
      DigitsAppend(Utf8Bytes(ch[0]), TextBytes(ch[1..]));
      PressedAppend([ch[0]], ch[1..]);
      assert [ch[0]] + ch[1..] == ch;
      OneKey(ch[0]);
    }
  }

  lemma OneKey(c: CodeUnit)
    ensures PressedDigits([c]) == KeyDigits(c)
  {
    assert [c][..0] == [];
  }

  lemma BytesAreBytes(c: CodeUnit)
    requires c < 0x800
    ensures forall i :: 0 <= i < |Utf8Bytes(c)| ==> Utf8Bytes(c)[i] < 0x100
  {
  }
}
