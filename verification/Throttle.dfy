// The throttle of reverse connections: a thread opens connections to the server and waits when too many of
// them have not yet been used; each connection's own thread reports its first data. The limit between 1 and
// 3 adapts: data raises it, a timeout lowers it, and so does, without the mutex, the service thread.
module Throttle {
  const MAX_CONNECTIONS: int := 3

  // The thread of one connection: `first` is first_read, n the result of the last read. The locked section
  // that lowers the limit and the one that reports are split at every access to the limit.
  datatype ConnPc =
    | CRead(first: bool, nread: nat)
    | CDecLock(first: bool, nread: nat) | CDecTest(first: bool, nread: nat) | CDecLoad(first: bool, nread: nat)
    | CDecStore(first: bool, nread: nat, v: int) | CDecUnlock(first: bool, nread: nat)
    | CStopLock(first: bool)
    | CReportLock(n: int, nread: nat) | CIncTest(n: int, nread: nat) | CIncLoad(n: int, nread: nat)
    | CIncStore(n: int, nread: nat, v: int) | CReport(n: int, nread: nat) | CReportUnlock(n: int, nread: nat)
    | CAfter(n: int, nread: nat) | CDone

  datatype ProducerPc = PTop | PConnect | PWaiting | PWoken | PGone

  // backdecrease as the service thread calls it.
  datatype ServicePc = SIdle | SLoad | SStore(v: int)

  datatype Owner = Nobody | Conn(i: nat)

  // num is backnumconn, act is backactmaxconn; spurious counts the waits that ended without a signal.
  datatype Shared = Shared(num: int, act: int, producer: ProducerPc, service: ServicePc, owner: Owner, stop: bool,
    spurious: nat)

  datatype State = State(sh: Shared, conns: seq<ConnPc>)

  predicate Initial(s: State) {
    s == State(Shared(0, 1, PTop, SIdle, Nobody, false, 0), [])
  }

  /** The connections that have not decremented backnumconn. */
  predicate Unreported(c: ConnPc) {
    match c
    case CRead(first, _) => first
    case CDecLock(first, _) => first
    case CDecTest(first, _) => first
    case CDecLoad(first, _) => first
    case CDecStore(first, _, _) => first
    case CDecUnlock(first, _) => first
    case CStopLock(first) => true
    case CReportLock(_, _) => true
    case CIncTest(_, _) => true
    case CIncLoad(_, _) => true
    case CIncStore(_, _, _) => true
    case CReport(_, _) => true
    case CReportUnlock(_, _) => false
    case CAfter(_, _) => false
    case CDone => false
  }

  predicate Holds(c: ConnPc) {
    c.CDecTest? || c.CDecLoad? || c.CDecStore? || c.CDecUnlock? || c.CIncTest? || c.CIncLoad? || c.CIncStore?
      || c.CReport? || c.CReportUnlock?
  }

  function Count(cs: seq<ConnPc>): nat {
    if cs == [] then 0 else Count(cs[..|cs| - 1]) + if Unreported(cs[|cs| - 1]) then 1 else 0
  }

  // ---- The steps ----

  /** pthread_cond_signal(&backcond): only the producer waits. */
  function Signal(h: Shared): Shared {
    if h.producer.PWaiting? then h.(producer := PWoken) else h
  }

  /** One step of backward_connection in the thread of connection i, with a request buffer of bufSize bytes. */
  ghost predicate Move(h: Shared, c: ConnPc, h': Shared, c': ConnPc, i: nat, bufSize: nat) {
    match c
    case CRead(first, nread) =>
      h' == h && (
      // The loop ends: the buffer is full or the head is complete
      || ((nread >= bufSize || nread > 0) && c' == if first then CReportLock(0, bufSize) else CDone)
      // The read times out
      || (nread < bufSize && c' == CDecLock(first, nread))
      // The server says "stop"
      || (nread == 0 && bufSize >= 4 && c' == CStopLock(first))
      // Data, the end of the stream or an error
      || (exists n :: -1 <= n <= bufSize - nread && nread < bufSize && c' == if first then CReportLock(n, nread)
        else CAfter(n, nread)))
    case CDecLock(first, nread) => h.owner == Nobody && h' == h.(owner := Conn(i)) && c' == CDecTest(first, nread)
    case CDecTest(first, nread) => h' == h && c' == if h.act > 1 then CDecLoad(first, nread)
      else CDecUnlock(first, nread)
    case CDecLoad(first, nread) => h' == h && c' == CDecStore(first, nread, h.act)
    case CDecStore(first, nread, v) => h' == h.(act := v - 1) && c' == CDecUnlock(first, nread)
    case CDecUnlock(first, nread) => h' == h.(owner := Nobody) && c' == if first then CReportLock(-1, nread)
      else CAfter(-1, nread)
    case CStopLock(first) => h.owner == Nobody && h' == Signal(h.(num := h.num - 1)) && c' == CDone
    case CReportLock(n, nread) => h.owner == Nobody && h' == h.(owner := Conn(i)) && c' == CIncTest(n, nread)
    case CIncTest(n, nread) => h' == h && c'
      == if n != 0 && n != -1 && h.act < MAX_CONNECTIONS then CIncLoad(n, nread) else CReport(n, nread)
    case CIncLoad(n, nread) => h' == h && c' == CIncStore(n, nread, h.act)
    case CIncStore(n, nread, v) => h' == h.(act := v + 1) && c' == CReport(n, nread)
    case CReport(n, nread) => h' == Signal(h.(num := h.num - 1)) && c' == CReportUnlock(n, nread)
    case CReportUnlock(n, nread) => h' == h.(owner := Nobody) && c' == CAfter(n, nread)
    case CAfter(n, nread) => h' == h && (c' == CDone || (n > 0 && c' == CRead(false, nread + n)))
    case CDone => false
  }

  ghost predicate ConnStep(s: State, s': State, i: nat, bufSize: nat)
    requires i < |s.conns|
  {
    && |s'.conns| == |s.conns| && s'.conns == s.conns[i := s'.conns[i]]
    && Move(s.sh, s.conns[i], s'.sh, s'.conns[i], i, bufSize)
  }

  /** backserver: a connection is opened only when the stop flag was seen clear. */
  predicate ProducerStep(s: State, s': State) {
    match s.sh.producer
    case PTop => s' == s.(sh := s.sh.(producer := if s.sh.stop then PGone else PConnect))
    case PConnect =>
      || s' == s.(sh := s.sh.(producer := PTop))
      || (s.sh.owner == Nobody &&
          s' == State(s.sh.(num := s.sh.num + 1, producer := if s.sh.num + 1 >= s.sh.act then PWaiting else PTop),
            s.conns + [CRead(true, 0)]))
    case PWaiting => false
    case PWoken => s.sh.owner == Nobody && s' == s.(sh := s.sh.(producer := PTop))
    case PGone => false
  }

  /** backdecrease, called without the mutex: test, load, store. */
  predicate ServiceStep(s: State, s': State) {
    match s.sh.service
    case SIdle => s' == s.(sh := s.sh.(service := if s.sh.act > 1 then SLoad else SIdle))
    case SLoad => s' == s.(sh := s.sh.(service := SStore(s.sh.act)))
    case SStore(v) => s' == s.(sh := s.sh.(service := SIdle, act := v - 1))
  }

  /** mg_stop: the flag first, the signal after it. */
  predicate StopStep(s: State, s': State) {
    s' == s.(sh := s.sh.(stop := true)) || (s.sh.stop && s.sh.owner == Nobody && s' == s.(sh := Signal(s.sh)))
  }

  predicate SpuriousStep(s: State, s': State) {
    s.sh.producer.PWaiting? && s' == s.(sh := s.sh.(producer := PWoken, spurious := s.sh.spurious + 1))
  }

  ghost predicate Step(s: State, s': State, bufSize: nat) {
    || ProducerStep(s, s') || ServiceStep(s, s') || StopStep(s, s') || SpuriousStep(s, s')
    || exists i :: 0 <= i < |s.conns| && ConnStep(s, s', i, bufSize)
  }

  // ---- The invariant ----

  /** Each connection reports exactly once: it has not done so as long as it has read nothing. */
  predicate ConnOk(c: ConnPc) {
    match c
    case CRead(first, nread) => first <==> nread == 0
    case CDecLock(first, nread) => first <==> nread == 0
    case CDecTest(first, nread) => first <==> nread == 0
    case CDecLoad(first, nread) => first <==> nread == 0
    case CDecStore(first, nread, v) => first <==> nread == 0
    case CDecUnlock(first, nread) => first <==> nread == 0
    case CStopLock(first) => first
    case _ => true
  }

  predicate CountInv(s: State) {
    && s.sh.num == Count(s.conns)
    && (forall i :: 0 <= i < |s.conns| ==> ConnOk(s.conns[i]))
    && (forall i :: 0 <= i < |s.conns| ==> (s.sh.owner == Conn(i) <==> Holds(s.conns[i])))
    && (s.sh.owner.Conn? ==> s.sh.owner.i < |s.conns|)
  }

  /** What a thread in the middle of changing the limit may count on: while the service thread is in the
      middle of it, the limit is at least 1, and the others have loaded at least what the test promised. */
  predicate LimitOk(h: Shared) {
    && -1 <= h.act <= MAX_CONNECTIONS
    && (!h.service.SIdle? ==> h.act >= 1)
    && (h.service.SStore? ==> 1 <= h.service.v <= MAX_CONNECTIONS)
  }

  predicate LoadedOk(h: Shared, c: ConnPc) {
    match c
    case CDecLoad(_, _) => h.act >= 2 || (h.service.SIdle? && h.act >= 0)
    case CDecStore(_, _, v) => v <= MAX_CONNECTIONS && (v >= 2 || (h.service.SIdle? && h.act == v >= 0))
    case CIncLoad(_, _) => h.act < MAX_CONNECTIONS
    case CIncStore(_, _, v) => v < MAX_CONNECTIONS && (v >= 1 || (h.service.SIdle? && h.act == v >= -1))
    case _ => true
  }

  predicate LimitInv(s: State) {
    LimitOk(s.sh) && forall i :: 0 <= i < |s.conns| ==> LoadedOk(s.sh, s.conns[i])
  }

  predicate ThrottleInv(h: Shared) {
    && (h.producer.PConnect? ==> h.num < MAX_CONNECTIONS + h.spurious)
    && ((h.producer.PTop? || h.producer.PWoken?) && !h.stop ==> h.num < MAX_CONNECTIONS + h.spurious)
    && h.num <= MAX_CONNECTIONS + h.spurious
    && (h.producer.PWaiting? ==> h.num > 0)
  }

  predicate Inv(s: State) { CountInv(s) && LimitInv(s) && ThrottleInv(s.sh) }

  lemma {:induction false} CountUpdate(cs: seq<ConnPc>, i: nat, c: ConnPc)
    requires i < |cs|
    ensures Count(cs[i := c]) + (if Unreported(cs[i]) then 1 else 0) == Count(cs) + (if Unreported(c) then 1 else 0)
  {
    var front := cs[..|cs| - 1];
    if i == |cs| - 1 {
      assert cs[i := c][..|cs| - 1] == front;
    } else {
      assert cs[i := c][..|cs| - 1] == front[i := c];
      CountUpdate(front, i, c);
    }
  }

  lemma {:induction false} CountBound(cs: seq<ConnPc>, i: nat)
    requires i < |cs| && Unreported(cs[i])
    ensures Count(cs) > 0
  {
    if i < |cs| - 1 {
      CountBound(cs[..|cs| - 1], i);
    }
  }

  lemma CountSnoc(cs: seq<ConnPc>, c: ConnPc)
    ensures Count(cs + [c]) == Count(cs) + if Unreported(c) then 1 else 0
  {
    assert (cs + [c])[..|cs|] == cs;
  }

  /** A step of a connection changes the count only when it reports, and the owner of the mutex only
      when it takes or leaves it; only the owner changes the limit. */
  lemma MoveCounts(h: Shared, c: ConnPc, h': Shared, c': ConnPc, i: nat, bufSize: nat)
    requires ConnOk(c) && Move(h, c, h', c', i, bufSize)
    ensures ConnOk(c') && h'.num == h.num - (if Unreported(c) then 1 else 0) + (if Unreported(c') then 1 else 0)
  {
  }

  lemma MoveOwner(h: Shared, c: ConnPc, h': Shared, c': ConnPc, i: nat, bufSize: nat)
    requires Move(h, c, h', c', i, bufSize)
    ensures h'.owner == if Holds(c') then (if Holds(c) then h.owner else Conn(i)) else if Holds(c) then Nobody
      else h.owner
    ensures Holds(c') && !Holds(c) ==> h.owner == Nobody
    ensures h'.act != h.act ==> Holds(c)
    ensures h'.service == h.service && h'.stop == h.stop && h'.spurious == h.spurious
  {
  }

  lemma MoveLimit(h: Shared, c: ConnPc, h': Shared, c': ConnPc, i: nat, bufSize: nat)
    requires LimitOk(h) && LoadedOk(h, c) && Move(h, c, h', c', i, bufSize)
    ensures LimitOk(h') && LoadedOk(h', c')
  {
  }

  lemma MoveThrottle(h: Shared, c: ConnPc, h': Shared, c': ConnPc, i: nat, bufSize: nat)
    requires ThrottleInv(h) && Move(h, c, h', c', i, bufSize) && h'.num >= 0
    ensures ThrottleInv(h')
  {
  }

  lemma ConnKeepsInv(s: State, s': State, i: nat, bufSize: nat)
    requires i < |s.conns| && Inv(s) && ConnStep(s, s', i, bufSize)
    ensures Inv(s')
  {
    hide Count, Move, Holds, ConnOk, LoadedOk, LimitOk, ThrottleInv;
    MoveCounts(s.sh, s.conns[i], s'.sh, s'.conns[i], i, bufSize);
    MoveOwner(s.sh, s.conns[i], s'.sh, s'.conns[i], i, bufSize);
    MoveLimit(s.sh, s.conns[i], s'.sh, s'.conns[i], i, bufSize);
    CountUpdate(s.conns, i, s'.conns[i]);
    MoveThrottle(s.sh, s.conns[i], s'.sh, s'.conns[i], i, bufSize);
    forall j | 0 <= j < |s.conns| && j != i ensures LoadedOk(s'.sh, s'.conns[j]) {
      assert s'.conns[j] == s.conns[j] && LoadedOk(s.sh, s.conns[j]);
      assert Holds(s.conns[i]) ==> !Holds(s.conns[j]);
      OthersLoaded(s.sh, s'.sh, s.conns[j]);
    }
  }

  lemma OthersLoaded(h: Shared, h': Shared, c: ConnPc)
    requires LoadedOk(h, c) && h'.service == h.service && (h'.act != h.act ==> !Holds(c))
    ensures LoadedOk(h', c)
  {
  }

  lemma ServiceKeepsInv(s: State, s': State)
    requires Inv(s) && ServiceStep(s, s')
    ensures Inv(s')
  {
    hide Count;
    forall j | 0 <= j < |s.conns| ensures LoadedOk(s'.sh, s'.conns[j]) {
      assert LoadedOk(s.sh, s.conns[j]);
    }
  }

  lemma ProducerKeepsInv(s: State, s': State)
    requires Inv(s) && ProducerStep(s, s')
    ensures Inv(s')
  {
    hide Count;
    CountSnoc(s.conns, CRead(true, 0));
    forall j | 0 <= j < |s'.conns| ensures LoadedOk(s'.sh, s'.conns[j]) {
      assert j < |s.conns| ==> LoadedOk(s.sh, s.conns[j]);
    }
  }

  /** Signals and wakeups change the producer only. */
  lemma WakeKeepsInv(s: State, s': State)
    requires Inv(s) && (StopStep(s, s') || SpuriousStep(s, s'))
    ensures Inv(s')
  {
    hide Count;
    forall j | 0 <= j < |s'.conns| ensures LoadedOk(s'.sh, s'.conns[j]) {
      assert LoadedOk(s.sh, s.conns[j]);
    }
  }

  lemma StepKeepsInv(s: State, s': State, bufSize: nat)
    requires Inv(s) && Step(s, s', bufSize)
    ensures Inv(s')
  {
    hide Inv, ProducerStep, StopStep, SpuriousStep, ServiceStep, ConnStep;
    if ProducerStep(s, s') {
      ProducerKeepsInv(s, s');
    } else if StopStep(s, s') || SpuriousStep(s, s') {
      WakeKeepsInv(s, s');
    } else if ServiceStep(s, s') {
      ServiceKeepsInv(s, s');
    } else {
      var i :| 0 <= i < |s.conns| && ConnStep(s, s', i, bufSize);
      ConnKeepsInv(s, s', i, bufSize);
    }
  }

  ghost predicate IsRun(run: seq<State>, bufSize: nat) {
    run != [] && Initial(run[0]) && forall k :: 0 < k < |run| ==> Step(run[k - 1], run[k], bufSize)
  }

  lemma {:induction false} InvHolds(run: seq<State>, bufSize: nat)
    requires IsRun(run, bufSize)
    ensures Inv(run[|run| - 1])
  {
    hide Inv, Step;
    if |run| == 1 {
      assert Inv(run[0]) by {
        InitialInv(run[0]);
      }
    } else {
      InvHolds(run[..|run| - 1], bufSize);
      StepKeepsInv(run[|run| - 2], run[|run| - 1], bufSize);
    }
  }

  lemma InitialInv(s: State)
    requires Initial(s)
    ensures Inv(s)
  {
  }

  // ---- What it means ----

  /** In every interleaving: backnumconn is the number of connections that have not reported, so each of them
      decrements it exactly once whatever path it takes; a waiting producer has such a connection to wait for;
      there are at most 3 of them, plus one for every wait that ended without a signal. */
  lemma ConnectionsCounted(run: seq<State>, bufSize: nat)
    requires IsRun(run, bufSize)
    ensures var s := run[|run| - 1];
      && s.sh.num == Count(s.conns) && -1 <= s.sh.act <= MAX_CONNECTIONS
      && s.sh.num <= MAX_CONNECTIONS + s.sh.spurious
      && (s.sh.producer == PWaiting ==> s.sh.num > 0)
  {
    InvHolds(run, bufSize);
  }

  predicate ReportsIn(s: State, s': State, i: nat) {
    i < |s.conns| && i < |s'.conns| && Unreported(s.conns[i]) && !Unreported(s'.conns[i])
  }

  /** In how many steps of a run connection i reports and backnumconn falls by one. */
  function Reports(run: seq<State>, i: nat): nat {
    if |run| <= 1 then 0
    else
      var s, s' := run[|run| - 2], run[|run| - 1];
      Reports(run[..|run| - 1], i)
      + if ReportsIn(s, s', i) && s'.sh.num == s.sh.num - 1 then 1 else 0
  }

  lemma NeverUnreportedAgain(h: Shared, c: ConnPc, h': Shared, c': ConnPc, i: nat, bufSize: nat)
    requires ConnOk(c) && Move(h, c, h', c', i, bufSize) && !Unreported(c)
    ensures !Unreported(c')
  {
  }

  /** A step leaves the other connections alone, and decrements the count exactly when a connection reports. */
  lemma StepReports(s: State, s': State, i: nat, bufSize: nat)
    requires Inv(s) && Step(s, s', bufSize) && i < |s.conns|
    ensures i < |s'.conns| && (!Unreported(s.conns[i]) ==> !Unreported(s'.conns[i]))
    ensures Unreported(s.conns[i]) && !Unreported(s'.conns[i]) ==> s'.sh.num == s.sh.num - 1
  {
    hide Move, Unreported, ConnOk, Count, LimitInv, ThrottleInv;
    if j :| 0 <= j < |s.conns| && ConnStep(s, s', j, bufSize) {
      assert ConnOk(s.conns[j]);
      MoveCounts(s.sh, s.conns[j], s'.sh, s'.conns[j], j, bufSize);
      if !Unreported(s.conns[j]) {
        NeverUnreportedAgain(s.sh, s.conns[j], s'.sh, s'.conns[j], j, bufSize);
      }
    }
  }

  /** And each report wakes the producer, if it waits. */
  lemma ReportWakes(s: State, s': State, i: nat, bufSize: nat)
    requires Inv(s) && Step(s, s', bufSize) && ReportsIn(s, s', i) && s.sh.producer == PWaiting
    ensures s'.sh.producer == PWoken
  {
    hide Move, ConnOk, Count, LimitInv, ThrottleInv, Unreported;
    if j :| 0 <= j < |s.conns| && ConnStep(s, s', j, bufSize) {
      assert ConnOk(s.conns[j]);
      if j == i {
        MoveWakes(s.sh, s.conns[j], s'.sh, s'.conns[j], j, bufSize);
      }
    }
  }

  lemma MoveWakes(h: Shared, c: ConnPc, h': Shared, c': ConnPc, i: nat, bufSize: nat)
    requires ConnOk(c) && Move(h, c, h', c', i, bufSize) && Unreported(c) && !Unreported(c') && h.producer == PWaiting
    ensures h'.producer == PWoken
  {
  }

  /** Every connection of a run decrements backnumconn once if it has reported, and else not at all, whatever path
      it has taken. */
  lemma {:induction false} EachReportsOnce(run: seq<State>, i: nat, bufSize: nat)
    requires IsRun(run, bufSize) && i < |run[|run| - 1].conns|
    ensures Reports(run, i) == if Unreported(run[|run| - 1].conns[i]) then 0 else 1
  {
    hide Inv, Unreported;
    if |run| > 1 {
      var before := run[..|run| - 1];
      var s, s' := run[|run| - 2], run[|run| - 1];
      InvHolds(before, bufSize);
      if i < |s.conns| {
        EachReportsOnce(before, i, bufSize);
        hide Step;
        StepReports(s, s', i, bufSize);
      } else {
        NewIsUnreported(s, s', i, bufSize);
        NotThere(before, i, bufSize);
      }
    }
  }

  lemma NewIsUnreported(s: State, s': State, i: nat, bufSize: nat)
    requires Step(s, s', bufSize) && |s.conns| <= i < |s'.conns|
    ensures Unreported(s'.conns[i])
  {
    hide Move;
  }

  lemma StepKeepsConnections(s: State, s': State, bufSize: nat)
    requires Step(s, s', bufSize)
    ensures |s.conns| <= |s'.conns|
  {
    hide Move;
  }

  lemma {:induction false} NotThere(run: seq<State>, i: nat, bufSize: nat)
    requires IsRun(run, bufSize) && i >= |run[|run| - 1].conns|
    ensures Reports(run, i) == 0
  {
    hide Step, Unreported;
    if |run| > 1 {
      StepKeepsConnections(run[|run| - 2], run[|run| - 1], bufSize);
      NotThere(run[..|run| - 1], i, bufSize);
    }
  }

  // What a read delivers is never less than -1, and only one that delivered data is on its way to raise the limit.
  predicate ReadOk(c: ConnPc) {
    match c
    case CReportLock(n, _) => n >= -1
    case CIncTest(n, _) => n >= -1
    case CIncLoad(n, _) => n > 0
    case CIncStore(n, _, _) => n > 0
    case _ => true
  }

  lemma MoveReads(h: Shared, c: ConnPc, h': Shared, c': ConnPc, i: nat, bufSize: nat)
    requires ReadOk(c) && Move(h, c, h', c', i, bufSize)
    ensures ReadOk(c')
  {
  }

  lemma {:induction false} ReadsHold(run: seq<State>, i: nat, bufSize: nat)
    requires IsRun(run, bufSize) && i < |run[|run| - 1].conns|
    ensures ReadOk(run[|run| - 1].conns[i])
  {
    hide Move, ReadOk;
    if |run| > 1 {
      var before := run[..|run| - 1];
      var s, s' := run[|run| - 2], run[|run| - 1];
      if i < |s.conns| {
        ReadsHold(before, i, bufSize);
        if j :| 0 <= j < |s.conns| && ConnStep(s, s', j, bufSize) && j == i {
          MoveReads(s.sh, s.conns[i], s'.sh, s'.conns[i], i, bufSize);
        }
      } else {
        NewHasRead(s, s', i, bufSize);
      }
    }
  }

  lemma NewHasRead(s: State, s': State, i: nat, bufSize: nat)
    requires Step(s, s', bufSize) && |s.conns| <= i < |s'.conns|
    ensures ReadOk(s'.conns[i])
  {
    hide Move;
  }

  /** A connection about to report in any run, and its own steps up to the report with no other in between: the limit
      is raised by one if and only if data came and the limit was below 3. */
  lemma DataRaisesIff(run: seq<State>, i: nat, own: seq<State>, bufSize: nat)
    requires IsRun(run, bufSize) && own != [] && own[0] == run[|run| - 1] && i < |own[0].conns|
    requires own[0].conns[i].CIncTest?
    requires forall k :: 0 <= k < |own| ==> i < |own[k].conns| && (own[k].conns[i].CReport? <==> k == |own| - 1)
    requires forall k :: 0 < k < |own| ==> ConnStep(own[k - 1], own[k], i, bufSize)
    ensures var h, h' := own[0].sh, own[|own| - 1].sh;
      && (h'.act == h.act + 1 <==> own[0].conns[i].n > 0 && h.act < 3)
      && (h'.act == h.act <==> own[0].conns[i].n <= 0 || h.act >= 3)
  {
    ReadsHold(run, i, bufSize);
    assert ConnStep(own[0], own[1], i, bufSize);
    if own[1].conns[i].CIncLoad? {
      assert ConnStep(own[1], own[2], i, bufSize);
      assert ConnStep(own[2], own[3], i, bufSize);
    }
  }

  /** When every connection is done, every one has reported, and the producer does not wait. */
  lemma DoneHasReported(s: State)
    requires Inv(s) && forall i :: 0 <= i < |s.conns| ==> s.conns[i] == CDone
    ensures s.sh.num == 0 && s.sh.producer != PWaiting
  {
    NoneUnreported(s.conns);
  }

  lemma {:induction false} NoneUnreported(cs: seq<ConnPc>)
    requires forall i :: 0 <= i < |cs| ==> cs[i] == CDone
    ensures Count(cs) == 0
  {
    if cs != [] {
      NoneUnreported(cs[..|cs| - 1]);
    }
  }

  // ---- The limit ----

  /** A connection between its test of the limit and its store, for whatever it does to it. */
  predicate Changing(c: ConnPc) { c.CDecLoad? || c.CDecStore? || c.CIncLoad? || c.CIncStore? }

  /** The service thread and a connection are not in the middle of changing the limit at the same time. */
  predicate Apart(s: State) {
    s.sh.service.SIdle? || forall i :: 0 <= i < |s.conns| ==> !Changing(s.conns[i])
  }

  predicate LockedLoadedOk(h: Shared, c: ConnPc) {
    match c
    case CDecLoad(_, _) => h.act > 1
    case CDecStore(_, _, v) => v == h.act > 1
    case CIncLoad(_, _) => h.act < MAX_CONNECTIONS
    case CIncStore(_, _, v) => v == h.act < MAX_CONNECTIONS
    case _ => true
  }

  predicate LockedInv(s: State) {
    && CountInv(s) && 1 <= s.sh.act <= MAX_CONNECTIONS
    && (s.sh.service.SLoad? ==> s.sh.act > 1) && (s.sh.service.SStore? ==> s.sh.service.v == s.sh.act > 1)
    && forall i :: 0 <= i < |s.conns| ==> LockedLoadedOk(s.sh, s.conns[i])
  }

  lemma LockedMove(h: Shared, c: ConnPc, h': Shared, c': ConnPc, i: nat, bufSize: nat)
    requires 1 <= h.act <= MAX_CONNECTIONS && LockedLoadedOk(h, c) && Move(h, c, h', c', i, bufSize)
    ensures 1 <= h'.act <= MAX_CONNECTIONS && LockedLoadedOk(h', c')
    ensures h'.act != h.act ==> Changing(c)
  {
  }

  lemma LockedOthers(h: Shared, h': Shared, c: ConnPc)
    requires LockedLoadedOk(h, c) && (h'.act != h.act ==> !Holds(c))
    ensures LockedLoadedOk(h', c)
  {
  }

  lemma LockedConnKeeps(s: State, s': State, i: nat, bufSize: nat)
    requires i < |s.conns| && LockedInv(s) && Apart(s) && ConnStep(s, s', i, bufSize)
    ensures LockedInv(s')
  {
    hide Count, Move, Holds, ConnOk, LockedLoadedOk, Changing;
    MoveCounts(s.sh, s.conns[i], s'.sh, s'.conns[i], i, bufSize);
    MoveOwner(s.sh, s.conns[i], s'.sh, s'.conns[i], i, bufSize);
    LockedMove(s.sh, s.conns[i], s'.sh, s'.conns[i], i, bufSize);
    CountUpdate(s.conns, i, s'.conns[i]);
    forall j | 0 <= j < |s.conns| && j != i ensures LockedLoadedOk(s'.sh, s'.conns[j]) {
      assert s'.conns[j] == s.conns[j] && LockedLoadedOk(s.sh, s.conns[j]);
      assert Holds(s.conns[i]) ==> !Holds(s.conns[j]);
      LockedOthers(s.sh, s'.sh, s.conns[j]);
    }
  }

  lemma LockedServiceKeeps(s: State, s': State)
    requires LockedInv(s) && Apart(s) && ServiceStep(s, s')
    ensures LockedInv(s')
  {
    hide Count, Holds, ConnOk;
    forall j | 0 <= j < |s'.conns| ensures LockedLoadedOk(s'.sh, s'.conns[j]) {
      assert LockedLoadedOk(s.sh, s.conns[j]);
      if s.sh.service.SStore? {
        assert !Changing(s.conns[j]);
      }
    }
  }

  lemma LockedStepKeeps(s: State, s': State, bufSize: nat)
    requires LockedInv(s) && Apart(s) && Step(s, s', bufSize)
    ensures LockedInv(s')
  {
    hide Count, ConnStep, ServiceStep;
    if i :| 0 <= i < |s.conns| && ConnStep(s, s', i, bufSize) {
      LockedConnKeeps(s, s', i, bufSize);
    } else if ServiceStep(s, s') {
      LockedServiceKeeps(s, s');
    } else {
      CountSnoc(s.conns, CRead(true, 0));
      forall j | 0 <= j < |s'.conns| ensures LockedLoadedOk(s'.sh, s'.conns[j]) {
        assert j < |s.conns| ==> LockedLoadedOk(s.sh, s.conns[j]) && (s.sh.owner == Conn(j) <==> Holds(s.conns[j]));
      }
    }
  }

  /** The limit stays between 1 and 3 in every run in which the service thread and a connection are never in the
      middle of changing it at the same time; with the mutex held by both they could not be. */
  lemma {:induction false} LockedLimit(run: seq<State>, bufSize: nat)
    requires IsRun(run, bufSize) && forall k :: 0 <= k < |run| - 1 ==> Apart(run[k])
    ensures LockedInv(run[|run| - 1]) && 1 <= run[|run| - 1].sh.act <= MAX_CONNECTIONS
  {
    hide Step, Apart;
    if |run| > 1 {
      LockedLimit(run[..|run| - 1], bufSize);
      LockedStepKeeps(run[|run| - 2], run[|run| - 1], bufSize);
    }
  }

  /** In particular when nobody ever holds the mutex while the service thread is at it. */
  lemma MutexFreeIsApart(s: State)
    requires CountInv(s) && (!s.sh.service.SIdle? ==> s.sh.owner == Nobody)
    ensures Apart(s)
  {
  }

  /** Two threads are about to lower a limit that allows it once: the limit is 1 or less, and a thread that has
      seen more has not yet loaded it. */
  predicate Outdated(s: State) {
    s.sh.act <= 1 && (s.sh.service.SLoad? || exists i :: 0 <= i < |s.conns| && s.conns[i].CDecLoad?)
  }

  // What has been loaded is enough for what is going to be stored.
  predicate LoadedEnough(s: State) {
    && s.sh.act >= 1 && (s.sh.service.SStore? ==> s.sh.service.v > 1)
    && forall i :: 0 <= i < |s.conns| ==>
      (s.conns[i].CDecStore? ==> s.conns[i].v > 1) && (s.conns[i].CIncStore? ==> s.conns[i].v >= 1)
  }

  lemma StaysEnough(s: State, s': State, bufSize: nat)
    requires LoadedEnough(s) && !Outdated(s) && Step(s, s', bufSize)
    ensures LoadedEnough(s')
  {
    hide Move;
    if i :| 0 <= i < |s.conns| && ConnStep(s, s', i, bufSize) {
      MoveEnough(s.sh, s.conns[i], s'.sh, s'.conns[i], i, bufSize);
    }
  }

  lemma MoveEnough(h: Shared, c: ConnPc, h': Shared, c': ConnPc, i: nat, bufSize: nat)
    requires Move(h, c, h', c', i, bufSize) && h.act >= 1 && (c.CDecLoad? ==> h.act > 1)
    requires (c.CDecStore? ==> c.v > 1) && (c.CIncStore? ==> c.v >= 1)
    ensures h'.act >= 1 && h'.service == h.service
    ensures (c'.CDecStore? ==> c'.v > 1) && (c'.CIncStore? ==> c'.v >= 1)
  {
  }

  /** Before the limit falls below 1 there is such a moment, in every run. */
  lemma {:induction false} OutdatedFirst(run: seq<State>, bufSize: nat)
    requires IsRun(run, bufSize) && forall k :: 0 <= k < |run| - 1 ==> !Outdated(run[k])
    ensures LoadedEnough(run[|run| - 1]) && run[|run| - 1].sh.act >= 1
  {
    hide Step, Outdated;
    if |run| > 1 {
      OutdatedFirst(run[..|run| - 1], bufSize);
      StaysEnough(run[|run| - 2], run[|run| - 1], bufSize);
    }
  }

  /** And at each such moment two more steps of that thread take the limit below 1. */
  lemma OutdatedGoesBelow(s: State, bufSize: nat) returns (s1: State, s2: State)
    requires Outdated(s)
    ensures Step(s, s1, bufSize) && Step(s1, s2, bufSize) && s2.sh.act < 1
  {
    if s.sh.service.SLoad? {
      s1 := s.(sh := s.sh.(service := SStore(s.sh.act)));
      s2 := s1.(sh := s1.sh.(service := SIdle, act := s.sh.act - 1));
    } else {
      var i :| 0 <= i < |s.conns| && s.conns[i].CDecLoad?;
      var c := s.conns[i];
      s1 := s.(conns := s.conns[i := CDecStore(c.first, c.nread, s.sh.act)]);
      s2 := State(s1.sh.(act := s.sh.act - 1), s1.conns[i := CDecUnlock(c.first, c.nread)]);
      assert ConnStep(s, s1, i, bufSize) && ConnStep(s1, s2, i, bufSize);
    }
  }

  lemma EnoughForOneStep(s: State, s': State, bufSize: nat)
    requires LoadedEnough(s) && Step(s, s', bufSize)
    ensures s'.sh.act >= 1
  {
    hide Move;
    if i :| 0 <= i < |s.conns| && ConnStep(s, s', i, bufSize) {
      MoveLeavesOne(s.sh, s.conns[i], s'.sh, s'.conns[i], i, bufSize);
    }
  }

  lemma MoveLeavesOne(h: Shared, c: ConnPc, h': Shared, c': ConnPc, i: nat, bufSize: nat)
    requires Move(h, c, h', c', i, bufSize) && h.act >= 1
    requires (c.CDecStore? ==> c.v > 1) && (c.CIncStore? ==> c.v >= 1)
    ensures h'.act >= 1
  {
  }

  /** So the condition is exact: in a run without such a moment so far, whatever two steps follow leave the limit at 1
      or more, if and only if this is not one. */
  lemma LimitKeptIff(run: seq<State>, bufSize: nat)
    requires IsRun(run, bufSize) && forall k :: 0 <= k < |run| - 1 ==> !Outdated(run[k])
    ensures var s := run[|run| - 1];
      (forall s1, s2 :: Step(s, s1, bufSize) && Step(s1, s2, bufSize) ==> s1.sh.act >= 1 && s2.sh.act >= 1)
        <==> !Outdated(s)
  {
    hide Step, Outdated, LoadedEnough;
    var s := run[|run| - 1];
    OutdatedFirst(run, bufSize);
    if Outdated(s) {
      var s1, s2 := OutdatedGoesBelow(s, bufSize);
    } else {
      forall s1, s2 | Step(s, s1, bufSize) && Step(s1, s2, bufSize) ensures s1.sh.act >= 1 && s2.sh.act >= 1 {
        StaysEnough(s, s1, bufSize);
        EnoughForOneStep(s, s1, bufSize);
        EnoughForOneStep(s1, s2, bufSize);
      }
    }
  }

  // ---- Runs that reach the bounds ----

  ghost predicate Reachable(s: State, bufSize: nat) {
    exists run :: IsRun(run, bufSize) && run[|run| - 1] == s
  }

  lemma ReachStep(s: State, s': State, bufSize: nat)
    requires Reachable(s, bufSize) && Step(s, s', bufSize)
    ensures Reachable(s', bufSize)
  {
    hide Step;
    var run :| IsRun(run, bufSize) && run[|run| - 1] == s;
    var longer := run + [s'];
    assert IsRun(longer, bufSize) && longer[|longer| - 1] == s';
  }

  lemma ReachInitial(bufSize: nat) returns (s: State)
    ensures Reachable(s, bufSize) && s == State(Shared(0, 1, PTop, SIdle, Nobody, false, 0), [])
  {
    s := State(Shared(0, 1, PTop, SIdle, Nobody, false, 0), []);
    assert IsRun([s], bufSize) && [s][|[s]| - 1] == s;
  }

  lemma ReachMove(s: State, i: nat, h': Shared, c': ConnPc, bufSize: nat) returns (s': State)
    requires Reachable(s, bufSize) && i < |s.conns| && Move(s.sh, s.conns[i], h', c', i, bufSize)
    ensures s' == State(h', s.conns[i := c']) && Reachable(s', bufSize)
  {
    hide Move, IsRun, Reachable;
    s' := State(h', s.conns[i := c']);
    assert ConnStep(s, s', i, bufSize);
    ReachStep(s, s', bufSize);
  }

  lemma ReachService(s: State, s': State, bufSize: nat)
    requires Reachable(s, bufSize) && ServiceStep(s, s')
    ensures Reachable(s', bufSize)
  {
    hide Reachable;
    ReachStep(s, s', bufSize);
  }

  /** The producer, at the top of its loop or just woken, opens one more connection. */
  lemma Opens(s: State, bufSize: nat) returns (s': State)
    requires Reachable(s, bufSize) && (s.sh.producer == PTop || s.sh.producer == PWoken) && s.sh.owner == Nobody
      && !s.sh.stop
    ensures Reachable(s', bufSize)
    ensures s' == State(s.sh.(num := s.sh.num + 1, producer := if s.sh.num + 1 >= s.sh.act then PWaiting else PTop),
      s.conns + [CRead(true, 0)])
  {
    hide Reachable, ConnStep;
    var top := s.(sh := s.sh.(producer := PTop));
    if s.sh.producer == PWoken {
      ReachStep(s, top, bufSize);
    }
    var connect := s.(sh := s.sh.(producer := PConnect));
    ReachStep(top, connect, bufSize);
    s' := State(s.sh.(num := s.sh.num + 1, producer := if s.sh.num + 1 >= s.sh.act then PWaiting else PTop),
      s.conns + [CRead(true, 0)]);
    ReachStep(connect, s', bufSize);
  }

  /** A connection gets its first data, raises the limit and reports. */
  lemma GetsData(s: State, i: nat, bufSize: nat) returns (s': State)
    requires Reachable(s, bufSize) && bufSize > 0 && i < |s.conns| && s.conns[i] == CRead(true, 0)
    requires s.sh.owner == Nobody && s.sh.act < MAX_CONNECTIONS
    ensures Reachable(s', bufSize)
    ensures s' == State(Signal(s.sh.(num := s.sh.num - 1, act := s.sh.act + 1)), s.conns[i := CAfter(1, 0)])
  {
    hide Reachable;
    var h := s.sh;
    var held := h.(owner := Conn(i));
    ReadsOne(h, i, bufSize);
    s' := ReachMove(s, i, h, CReportLock(1, 0), bufSize);
    s' := ReachMove(s', i, held, CIncTest(1, 0), bufSize);
    s' := ReachMove(s', i, held, CIncLoad(1, 0), bufSize);
    s' := ReachMove(s', i, held, CIncStore(1, 0, h.act), bufSize);
    s' := ReachMove(s', i, held.(act := h.act + 1), CReport(1, 0), bufSize);
    var reported := Signal(held.(act := h.act + 1, num := h.num - 1));
    s' := ReachMove(s', i, reported, CReportUnlock(1, 0), bufSize);
    s' := ReachMove(s', i, reported.(owner := Nobody), CAfter(1, 0), bufSize);
  }

  lemma ReadsOne(h: Shared, i: nat, bufSize: nat)
    requires bufSize > 0
    ensures Move(h, CRead(true, 0), h, CReportLock(1, 0), i, bufSize)
  {
    assert -1 <= 1 <= bufSize - 0;
  }

  /** A connection times out, takes the mutex and sees that the limit is above 1. */
  lemma TimesOut(s: State, i: nat, bufSize: nat) returns (s': State)
    requires Reachable(s, bufSize) && bufSize > 0 && i < |s.conns| && s.conns[i] == CRead(true, 0)
    requires s.sh.owner == Nobody && s.sh.act > 1
    ensures Reachable(s', bufSize) && s' == State(s.sh.(owner := Conn(i)), s.conns[i := CDecLoad(true, 0)])
  {
    hide Reachable;
    var held := s.sh.(owner := Conn(i));
    s' := ReachMove(s, i, s.sh, CDecLock(true, 0), bufSize);
    s' := ReachMove(s', i, held, CDecTest(true, 0), bufSize);
    s' := ReachMove(s', i, held, CDecLoad(true, 0), bufSize);
  }

  /** It lowers the limit, whatever that has become. */
  lemma Lowers(s: State, i: nat, bufSize: nat) returns (s': State)
    requires Reachable(s, bufSize) && i < |s.conns| && s.conns[i] == CDecLoad(true, 0)
    ensures Reachable(s', bufSize) && s' == State(s.sh.(act := s.sh.act - 1), s.conns[i := CDecUnlock(true, 0)])
  {
    hide Reachable;
    s' := ReachMove(s, i, s.sh, CDecStore(true, 0, s.sh.act), bufSize);
    s' := ReachMove(s', i, s.sh.(act := s.sh.act - 1), CDecUnlock(true, 0), bufSize);
  }

  /** One connection that has used its data, and a limit of 2. */
  lemma LimitReachesTwo(bufSize: nat) returns (s: State)
    requires bufSize > 0
    ensures Reachable(s, bufSize) && s == State(Shared(0, 2, PWoken, SIdle, Nobody, false, 0), [CAfter(1, 0)])
  {
    hide Reachable;
    s := ReachInitial(bufSize);
    s := Opens(s, bufSize);
    s := GetsData(s, 0, bufSize);
  }

  /** Three connections that have read nothing, at the highest limit. */
  lemma ThreeOpen(bufSize: nat) returns (s: State)
    requires bufSize > 0
    ensures Reachable(s, bufSize) && s.sh == Shared(3, 3, PWaiting, SIdle, Nobody, false, 0)
  {
    hide Reachable;
    s := LimitReachesTwo(bufSize);
    s := Opens(s, bufSize);
    s := GetsData(s, 1, bufSize);
    s := Opens(s, bufSize);
    s := Opens(s, bufSize);
    s := Opens(s, bufSize);
  }

  /** Because the wait is not repeated, k wakeups without a signal let 3 + k connections be open: the bound of
      ConnectionsCounted is reached for every k. */
  lemma {:induction false} SpuriousWakeupsAdd(k: nat, bufSize: nat) returns (s: State)
    requires bufSize > 0
    ensures Reachable(s, bufSize) && s.sh == Shared(MAX_CONNECTIONS + k, MAX_CONNECTIONS, PWaiting, SIdle, Nobody,
      false, k)
  {
    hide Reachable, ConnStep;
    if k == 0 {
      s := ThreeOpen(bufSize);
    } else {
      var before := SpuriousWakeupsAdd(k - 1, bufSize);
      var woken := before.(sh := before.sh.(producer := PWoken, spurious := k));
      ReachStep(before, woken, bufSize);
      s := Opens(woken, bufSize);
    }
  }

  /** The most connections that k such wakeups can lead to: never more than 3 + k, and as many as that. So the
      promised limit of 3 holds exactly of the runs without such a wakeup. */
  lemma MostConnections(k: nat, bufSize: nat)
    requires bufSize > 0
    ensures forall s :: Reachable(s, bufSize) && s.sh.spurious == k ==> s.sh.num <= MAX_CONNECTIONS + k
    ensures exists s :: Reachable(s, bufSize) && s.sh.spurious == k && s.sh.num == MAX_CONNECTIONS + k
  {
    forall s | Reachable(s, bufSize) && s.sh.spurious == k ensures s.sh.num <= MAX_CONNECTIONS + k {
      var run :| IsRun(run, bufSize) && run[|run| - 1] == s;
      ConnectionsCounted(run, bufSize);
    }
    hide Reachable;
    var s := SpuriousWakeupsAdd(k, bufSize);
  }

  /** As it is called, the service thread and a connection that times out can both see 2 and take it to 0. */
  lemma LimitReachesZero(bufSize: nat) returns (s: State)
    requires bufSize > 0
    ensures Reachable(s, bufSize) && s.sh.act == 0
  {
    hide Reachable;
    s := LimitReachesTwo(bufSize);
    s := Opens(s, bufSize);
    s := TimesOut(s, 1, bufSize);
    s := ServiceTests(s, bufSize);
    s := ServiceStores(s, bufSize);
    s := Lowers(s, 1, bufSize);
  }

  /** The service thread sees that the limit is above 1. */
  lemma ServiceTests(s: State, bufSize: nat) returns (s': State)
    requires Reachable(s, bufSize) && s.sh.service == SIdle && s.sh.act > 1
    ensures Reachable(s', bufSize) && s' == s.(sh := s.sh.(service := SLoad))
  {
    hide Reachable;
    s' := s.(sh := s.sh.(service := SLoad));
    ReachService(s, s', bufSize);
  }

  /** It loads the limit and stores one less. */
  lemma ServiceStores(s: State, bufSize: nat) returns (s': State)
    requires Reachable(s, bufSize) && s.sh.service == SLoad
    ensures Reachable(s', bufSize) && s' == s.(sh := s.sh.(service := SIdle, act := s.sh.act - 1))
  {
    hide Reachable;
    var loaded := s.(sh := s.sh.(service := SStore(s.sh.act)));
    ReachService(s, loaded, bufSize);
    s' := s.(sh := s.sh.(service := SIdle, act := s.sh.act - 1));
    ReachService(loaded, s', bufSize);
  }

  /** It can even fall to -1: the service thread loads 1 and stores 0 only after another connection has raised the
      limit and a third one has seen 2. */
  lemma LimitReachesMinusOne(bufSize: nat) returns (s: State)
    requires bufSize > 0
    ensures Reachable(s, bufSize) && s.sh.act == -1
  {
    hide Reachable;
    s := LimitReachesTwo(bufSize);
    s := Opens(s, bufSize);
    s := ServiceTests(s, bufSize);
    s := TimesOut(s, 1, bufSize);
    s := Lowers(s, 1, bufSize);
    var loaded := s.(sh := s.sh.(service := SStore(1)));
    ReachService(s, loaded, bufSize);
    s := ReachMove(loaded, 1, loaded.sh.(owner := Nobody), CReportLock(-1, 0), bufSize);
    s := Opens(s, bufSize);
    s := GetsData(s, 2, bufSize);
    s := Opens(s, bufSize);
    s := TimesOut(s, 3, bufSize);
    var stored := s.(sh := s.sh.(service := SIdle, act := 0));
    ReachService(s, stored, bufSize);
    s := Lowers(stored, 3, bufSize);
  }
}
