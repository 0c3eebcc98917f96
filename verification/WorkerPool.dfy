// The pool of mongoose: one master thread that queues accepted sockets, worker threads that take them, a
// mutex, three condition variables and a stop flag, as a state machine with one step for each thing a
// thread does between two points at which other threads can be seen. Waiting threads may also wake
// spuriously, and a signal may wake more than one thread.
module WorkerPool {
  import opened SocketRing

  // Where the master thread is: in its accept loop, in produce_socket(x), or in the shutdown behind the loop.
  datatype MasterPc =
    | MTop | MSelect
    | MLock(x: Socket) | MTest(x: Socket) | MGoSleep(x: Socket) | MWaiting(x: Socket) | MWoken(x: Socket)
    | MPut(x: Socket) | MSignal | MUnlock
    | MBroadcast | MLockEnd | MTestEnd | MGoSleepEnd | MWaitingEnd | MWokenEnd | MUnlockEnd | MDestroy | MDone

  // Where a worker thread is: at the top of its loop, in consume_socket, with a connection, or leaving.
  datatype WorkerPc =
    | WTop | WLock | WTest | WGoSleep | WWaiting | WWoken | WStopCheck | WTake | WSignal | WUnlock | WBusy
    | WStopUnlock | WExitLock | WExitDec | WExitSignal | WExitUnlock | WGone

  datatype Owner = Nobody | ByMaster | ByWorker(i: nat)

  datatype State = State(
    ring: Ring, master: MasterPc, workers: seq<WorkerPc>, owner: Owner, stop: int, numThreads: int,
    accepted: seq<Socket>, consumed: seq<Socket>)

  predicate Initial(s: State, n: nat) {
    s == State(Ring(seq(SLOTS, _ => 0), 0, 0), MTop, seq(n, _ => WTop), Nobody, 0, n, [], [])
  }

  // ---- The steps ----

  /** What pthread_cond_signal may do: wake at least one waiting thread, if any waits. */
  predicate Wakes(ws: seq<WorkerPc>, ws': seq<WorkerPc>) {
    && |ws'| == |ws|
    && (forall i :: 0 <= i < |ws| ==> ws'[i] == ws[i] || (ws[i] == WWaiting && ws'[i] == WWoken))
    && ((exists i :: 0 <= i < |ws| && ws[i] == WWaiting)
      ==> exists i :: 0 <= i < |ws| && ws[i] == WWaiting && ws'[i] == WWoken)
  }

  function WakeAll(ws: seq<WorkerPc>): (r: seq<WorkerPc>)
    ensures |r| == |ws|
  {
    seq(|ws|, i requires 0 <= i < |ws| => if ws[i] == WWaiting then WWoken else ws[i])
  }

  ghost predicate MasterStep(s: State, s': State) {
    match s.master
    case MTop => s' == s.(master := if s.stop == 0 then MSelect else MBroadcast)
    case MSelect => s' == s.(master := MTop) || exists x :: s' == s.(master := MLock(x))
    case MLock(x) => s.owner == Nobody && s' == s.(master := MTest(x), owner := ByMaster)
    case MTest(x) => s' == s.(master := if s.ring.Size() >= SLOTS then MGoSleep(x) else MPut(x))
    case MGoSleep(x) => s' == s.(master := MWaiting(x), owner := Nobody)
    case MWaiting(x) => false
    case MWoken(x) => s.owner == Nobody && s' == s.(master := MTest(x), owner := ByMaster)
    case MPut(x) =>
      && s.ring.Ok() && s.ring.Size() < SLOTS
      && s' == s.(ring := s.ring.Put(x), accepted := s.accepted + [x], master := MSignal)
    case MSignal => exists ws :: Wakes(s.workers, ws) && s' == s.(workers := ws, master := MUnlock)
    case MUnlock => s' == s.(master := MSelect, owner := Nobody)
    case MBroadcast => s' == s.(workers := WakeAll(s.workers), master := MLockEnd)
    case MLockEnd => s.owner == Nobody && s' == s.(master := MTestEnd, owner := ByMaster)
    case MTestEnd => s' == s.(master := if s.numThreads > 0 then MGoSleepEnd else MUnlockEnd)
    case MGoSleepEnd => s' == s.(master := MWaitingEnd, owner := Nobody)
    case MWaitingEnd => false
    case MWokenEnd => s.owner == Nobody && s' == s.(master := MTestEnd, owner := ByMaster)
    case MUnlockEnd => s' == s.(master := MDestroy, owner := Nobody)
    case MDestroy => s' == s.(master := MDone, stop := 2)
    case MDone => false
  }

  /** The master once the condition variable it may be waiting on is signalled. */
  function Signalled(m: MasterPc): MasterPc { if m.MWaiting? then MWoken(m.x) else m }

  function SignalledEnd(m: MasterPc): MasterPc { if m.MWaitingEnd? then MWokenEnd else m }

  function At(s: State, i: nat, pc: WorkerPc): State
    requires i < |s.workers|
  {
    s.(workers := s.workers[i := pc])
  }

  ghost predicate WorkerStep(s: State, s': State, i: nat)
    requires i < |s.workers|
  {
    match s.workers[i]
    case WTop => s' == At(s, i, if s.stop == 0 then WLock else WExitLock)
    case WLock => s.owner == Nobody && s' == At(s, i, WTest).(owner := ByWorker(i))
    case WTest => s' == At(s, i, if s.ring.Size() == 0 && s.stop == 0 then WGoSleep else WStopCheck)
    case WGoSleep => s' == At(s, i, WWaiting).(owner := Nobody)
    case WWaiting => false
    case WWoken => s.owner == Nobody && s' == At(s, i, WTest).(owner := ByWorker(i))
    case WStopCheck => s' == At(s, i, if s.stop != 0 then WStopUnlock else WTake)
    case WTake =>
      && s.ring.Ok() && s.ring.Size() > 0
      && s' == At(s, i, WSignal).(ring := s.ring.Take(), consumed := s.consumed + [s.ring.First()])
    case WSignal => s' == At(s, i, WUnlock).(master := Signalled(s.master))
    case WUnlock => s' == At(s, i, WBusy).(owner := Nobody)
    case WBusy => s' == At(s, i, WTop)
    case WStopUnlock => s' == At(s, i, WExitLock).(owner := Nobody)
    case WExitLock => s.owner == Nobody && s' == At(s, i, WExitDec).(owner := ByWorker(i))
    case WExitDec => s' == At(s, i, WExitSignal).(numThreads := s.numThreads - 1)
    case WExitSignal => s' == At(s, i, WExitUnlock).(master := SignalledEnd(s.master))
    case WExitUnlock => s' == At(s, i, WGone).(owner := Nobody)
    case WGone => false
  }

  /** A step of one of the threads of the pool. */
  ghost predicate ThreadStep(s: State, s': State) {
    MasterStep(s, s') || exists i :: 0 <= i < |s.workers| && WorkerStep(s, s', i)
  }

  /** Somebody calls mg_stop. */
  predicate StopStep(s: State, s': State) {
    s.stop == 0 && s' == s.(stop := 1)
  }

  ghost predicate SpuriousStep(s: State, s': State) {
    || (s.master.MWaiting? && s' == s.(master := MWoken(s.master.x)))
    || (s.master.MWaitingEnd? && s' == s.(master := MWokenEnd))
    || exists i :: 0 <= i < |s.workers| && s.workers[i] == WWaiting && s' == At(s, i, WWoken)
  }

  ghost predicate Step(s: State, s': State) {
    ThreadStep(s, s') || StopStep(s, s') || SpuriousStep(s, s')
  }

  // ---- The invariant ----

  predicate MasterHolds(m: MasterPc) {
    m.MTest? || m.MGoSleep? || m.MPut? || m.MSignal? || m.MUnlock? || m.MTestEnd? || m.MGoSleepEnd? || m.MUnlockEnd?
  }

  predicate Holds(w: WorkerPc) {
    w in {WTest, WGoSleep, WStopCheck, WTake, WSignal, WUnlock, WStopUnlock, WExitDec, WExitSignal, WExitUnlock}
  }

  /** A worker on its way to the queue that has been woken, or holds the mutex and may take a socket. */
  predicate Active(w: WorkerPc) { w in {WWoken, WTest, WStopCheck, WTake} }

  predicate Counted(w: WorkerPc) { w !in {WExitSignal, WExitUnlock, WGone} }

  function Count(ws: seq<WorkerPc>, p: WorkerPc -> bool): nat {
    if ws == [] then 0 else Count(ws[..|ws| - 1], p) + if p(ws[|ws| - 1]) then 1 else 0
  }

  predicate Leaving(w: WorkerPc) { w in {WStopUnlock, WExitLock, WExitDec, WExitSignal, WExitUnlock, WGone} }

  predicate Ending(m: MasterPc) {
    m in {MBroadcast, MLockEnd, MTestEnd, MGoSleepEnd, MWaitingEnd, MWokenEnd, MUnlockEnd, MDestroy, MDone}
  }

  predicate SomeWaiting(ws: seq<WorkerPc>) { exists i :: 0 <= i < |ws| && ws[i] == WWaiting }

  /** At most one thread is in a critical section: the owner of the mutex. */
  predicate MutexInv(s: State) {
    && (s.owner == ByMaster <==> MasterHolds(s.master))
    && (forall i :: 0 <= i < |s.workers| ==> (s.owner == ByWorker(i) <==> Holds(s.workers[i])))
    && (s.owner.ByWorker? ==> s.owner.i < |s.workers|)
  }

  /** The queue is a queue: what has been accepted is what has been taken, in order, and what is in the ring. */
  predicate QueueInv(s: State) {
    && s.ring.Ok()
    && s.accepted == s.consumed + s.ring.Contents()
    && (s.master.MPut? ==> s.ring.Size() < SLOTS)
    && (s.master.MGoSleep? ==> s.ring.Size() == SLOTS)
    && (forall i :: 0 <= i < |s.workers| ==>
          && (s.workers[i] == WGoSleep ==> s.ring.Size() == 0)
          && (s.workers[i] == WStopCheck ==> s.stop != 0 || s.ring.Size() > 0)
          && (s.workers[i] == WTake ==> s.ring.Size() > 0))
  }

  /** No wakeup is lost. */
  predicate WakeupInv(s: State) {
    && (s.stop == 0 && SomeWaiting(s.workers) ==>
          s.ring.Size() <= Count(s.workers, Active) + if s.master.MSignal? then 1 else 0)
    && (s.master.MWaiting? ==>
          s.ring.Size() == SLOTS || exists i :: 0 <= i < |s.workers| && s.workers[i] == WSignal)
    && (s.master.MWaitingEnd? ==>
          s.numThreads > 0 || exists i :: 0 <= i < |s.workers| && s.workers[i] == WExitSignal)
  }

  /** The stop handshake. */
  predicate StopInv(s: State) {
    && s.numThreads == Count(s.workers, Counted)
    && 0 <= s.stop <= 2
    && (Ending(s.master) ==> s.stop != 0)
    && (forall i :: 0 <= i < |s.workers| && Leaving(s.workers[i]) ==> s.stop != 0)
    && (s.stop == 2 <==> s.master.MDone?)
    && (s.master.MGoSleepEnd? ==> s.numThreads > 0)
    && (s.master.MUnlockEnd? ==> s.numThreads == 0)
    && (s.master.MDestroy? || s.master.MDone? ==> forall i :: 0 <= i < |s.workers| ==> s.workers[i] == WGone)
  }

  predicate Inv(s: State) {
    MutexInv(s) && QueueInv(s) && WakeupInv(s) && StopInv(s)
  }

  // ---- Counting workers ----

  lemma {:induction false} CountUpdate(ws: seq<WorkerPc>, i: nat, w: WorkerPc, p: WorkerPc -> bool)
    requires i < |ws|
    ensures Count(ws[i := w], p) + (if p(ws[i]) then 1 else 0) == Count(ws, p) + (if p(w) then 1 else 0)
  {
    var front := ws[..|ws| - 1];
    if i == |ws| - 1 {
      assert ws[i := w][..|ws| - 1] == front;
    } else {
      assert ws[i := w][..|ws| - 1] == front[i := w];
      CountUpdate(front, i, w, p);
    }
  }

  lemma {:induction false} CountBound(ws: seq<WorkerPc>, p: WorkerPc -> bool, i: nat)
    requires i < |ws| && p(ws[i])
    ensures Count(ws, p) > 0
  {
    if i < |ws| - 1 {
      CountBound(ws[..|ws| - 1], p, i);
    }
  }

  lemma {:induction false} CountSome(ws: seq<WorkerPc>, p: WorkerPc -> bool) returns (i: nat)
    requires Count(ws, p) > 0
    ensures i < |ws| && p(ws[i])
  {
    i := |ws| - 1;
    if !p(ws[i]) {
      i := CountSome(ws[..|ws| - 1], p);
    }
  }

  /** Waking threads makes them active; waking at least one adds at least one. */
  lemma {:induction false} CountWoken(ws: seq<WorkerPc>, ws': seq<WorkerPc>)
    requires |ws'| == |ws| && forall i :: 0 <= i < |ws| ==> ws'[i] == ws[i] || (ws[i] == WWaiting && ws'[i] == WWoken)
    ensures Count(ws', Counted) == Count(ws, Counted)
    ensures Count(ws', Active) >= Count(ws, Active)
    ensures (exists i :: 0 <= i < |ws| && ws[i] == WWaiting && ws'[i] == WWoken)
      ==> Count(ws', Active) > Count(ws, Active)
  {
    if ws != [] {
      var n := |ws| - 1;
      CountWoken(ws[..n], ws'[..n]);
      if i :| 0 <= i < |ws| && ws[i] == WWaiting && ws'[i] == WWoken {
        assert i < n ==> ws[..n][i] == WWaiting && ws'[..n][i] == WWoken;
      }
    }
  }

  // ---- Every step keeps the invariant ----

  lemma InitialInv(s: State, n: nat)
    requires Initial(s, n)
    ensures Inv(s)
  {
    AllCounted(n);
  }

  lemma {:induction false} AllCounted(n: nat)
    ensures Count(seq(n, _ => WTop), Counted) == n
  {
    if n > 0 {
      assert seq(n, _ => WTop)[..n - 1] == seq(n - 1, _ => WTop);
      AllCounted(n - 1);
    }
  }

  lemma MasterKeepsMutex(s: State, s': State)
    requires MutexInv(s) && MasterStep(s, s')
    ensures MutexInv(s')
  {
  }

  lemma MasterKeepsQueue(s: State, s': State)
    requires MutexInv(s) && QueueInv(s) && MasterStep(s, s')
    ensures QueueInv(s')
  {
    if s.master.MPut? {
      PutKeepsQueue(s, s');
    } else {
      hide Ring.Contents, Ring.Put;
    }
  }

  lemma PutKeepsQueue(s: State, s': State)
    requires MutexInv(s) && QueueInv(s) && s.master.MPut? && MasterStep(s, s')
    ensures QueueInv(s')
  {
    PutIsLast(s.ring, s.master.x);
    hide Ring.Contents, Ring.Put;
    assert s.accepted + [s.master.x] == s.consumed + (s.ring.Contents() + [s.master.x]);
  }

  lemma MasterKeepsWakeups(s: State, s': State)
    requires Inv(s) && MasterStep(s, s')
    ensures WakeupInv(s')
  {
    if s.master.MSignal? || s.master.MBroadcast? {
      CountWoken(s.workers, s'.workers);
    }
  }

  lemma MasterKeepsStop(s: State, s': State)
    requires Inv(s) && MasterStep(s, s')
    ensures StopInv(s')
  {
    hide MutexInv, QueueInv, WakeupInv, Count;
    if s.master.MSignal? || s.master.MBroadcast? {
      WakingKeepsStop(s, s');
    } else {
      if s.master.MUnlockEnd? {
        AllGone(s);
      }
      assert s'.workers == s.workers;
    }
  }

  lemma WakingKeepsStop(s: State, s': State)
    requires Inv(s) && MasterStep(s, s') && (s.master.MSignal? || s.master.MBroadcast?)
    ensures StopInv(s')
  {
    hide MutexInv, QueueInv, WakeupInv, Count;
    CountWoken(s.workers, s'.workers);
  }

  lemma AllGone(s: State)
    requires Inv(s) && s.master.MUnlockEnd?
    ensures forall i :: 0 <= i < |s.workers| ==> s.workers[i] == WGone
  {
    hide QueueInv, WakeupInv;
    forall i | 0 <= i < |s.workers| ensures s.workers[i] == WGone {
      if Counted(s.workers[i]) {
        CountBound(s.workers, Counted, i);
      }
    }
  }

  lemma MasterKeepsInv(s: State, s': State)
    requires Inv(s) && MasterStep(s, s')
    ensures Inv(s')
  {
    MasterKeepsMutex(s, s');
    MasterKeepsQueue(s, s');
    MasterKeepsWakeups(s, s');
    MasterKeepsStop(s, s');
  }

  lemma WorkerKeepsMutex(s: State, s': State, i: nat)
    requires i < |s.workers| && MutexInv(s) && WorkerStep(s, s', i)
    ensures MutexInv(s')
  {
  }

  lemma WorkerKeepsQueue(s: State, s': State, i: nat)
    requires i < |s.workers| && Inv(s) && WorkerStep(s, s', i)
    ensures QueueInv(s')
  {
    hide Ring.Contents, WakeupInv, StopInv;
    if s.workers[i] == WTake {
      TakeKeepsQueue(s, s', i);
    }
  }

  lemma TakeKeepsQueue(s: State, s': State, i: nat)
    requires i < |s.workers| && Inv(s) && WorkerStep(s, s', i) && s.workers[i] == WTake
    ensures QueueInv(s')
  {
    TakeIsFirst(s.ring);
    hide Ring.Contents, Ring.Take, Ring.First, WakeupInv, StopInv;
    assert s.consumed + ([s.ring.First()] + s'.ring.Contents()) == s'.consumed + s'.ring.Contents();
  }

  lemma WorkerKeepsWorkersAwake(s: State, s': State, i: nat)
    requires i < |s.workers| && Inv(s) && WorkerStep(s, s', i) && s'.stop == 0 && SomeWaiting(s'.workers)
    ensures s'.ring.Size() <= Count(s'.workers, Active) + if s'.master.MSignal? then 1 else 0
  {
    hide Count, Ring.Contents, StopInv;
    CountUpdate(s.workers, i, s'.workers[i], Active);
    if s.workers[i] != WGoSleep {
      var j :| 0 <= j < |s'.workers| && s'.workers[j] == WWaiting;
      assert s.workers[j] == WWaiting;
    }
    if s.workers[i] == WTake {
      TakeIsFirst(s.ring);
    }
  }

  lemma WorkerKeepsMasterAwake(s: State, s': State, i: nat)
    requires i < |s.workers| && Inv(s) && WorkerStep(s, s', i)
    ensures s'.master.MWaiting? ==>
          s'.ring.Size() == SLOTS || exists j :: 0 <= j < |s'.workers| && s'.workers[j] == WSignal
    ensures s'.master.MWaitingEnd? ==>
          s'.numThreads > 0 || exists j :: 0 <= j < |s'.workers| && s'.workers[j] == WExitSignal
  {
    hide Count, Ring.Contents;
    if s'.master.MWaiting? {
      if s.workers[i] == WTake {
        assert s'.workers[i] == WSignal;
      } else if s.ring.Size() != SLOTS {
        var j :| 0 <= j < |s.workers| && s.workers[j] == WSignal;
        assert s'.workers[j] == WSignal;
      }
    } else if s'.master.MWaitingEnd? {
      if s.workers[i] == WExitDec {
        assert s'.workers[i] == WExitSignal;
      } else if s.numThreads <= 0 {
        var j :| 0 <= j < |s.workers| && s.workers[j] == WExitSignal;
        assert s'.workers[j] == WExitSignal;
      }
    }
  }

  lemma WorkerKeepsWakeups(s: State, s': State, i: nat)
    requires i < |s.workers| && Inv(s) && WorkerStep(s, s', i)
    ensures WakeupInv(s')
  {
    hide Inv, WorkerStep;
    if s'.stop == 0 && SomeWaiting(s'.workers) {
      WorkerKeepsWorkersAwake(s, s', i);
    }
    WorkerKeepsMasterAwake(s, s', i);
  }

  /** What a step of a worker does to its own place, to the flags and to the master. */
  lemma WorkerShape(s: State, s': State, i: nat)
    requires i < |s.workers| && WorkerStep(s, s', i)
    ensures s'.workers == s.workers[i := s'.workers[i]] && s'.stop == s.stop && s.workers[i] != WGone
    ensures Leaving(s'.workers[i]) ==> Leaving(s.workers[i]) || s.stop != 0
    ensures s'.master == s.master || s'.master == Signalled(s.master) || s'.master == SignalledEnd(s.master)
    ensures s'.numThreads == s.numThreads - (if Counted(s.workers[i]) then 1 else 0)
      + (if Counted(s'.workers[i]) then 1 else 0)
    ensures s'.numThreads != s.numThreads ==> s.workers[i] == WExitDec
  {
    hide Ring.Ok, Ring.Put, Ring.Take, Ring.First;
  }

  lemma WorkerKeepsStop(s: State, s': State, i: nat)
    requires i < |s.workers| && Inv(s) && WorkerStep(s, s', i)
    ensures StopInv(s')
  {
    hide Count, QueueInv, WakeupInv, MutexInv, WorkerStep;
    WorkerShape(s, s', i);
    CountUpdate(s.workers, i, s'.workers[i], Counted);
    if s.workers[i] == WExitDec {
      OnlyOwner(s, i);
    }
  }

  lemma OnlyOwner(s: State, i: nat)
    requires i < |s.workers| && MutexInv(s) && Holds(s.workers[i])
    ensures !MasterHolds(s.master)
  {
  }

  lemma WorkerKeepsInv(s: State, s': State, i: nat)
    requires i < |s.workers| && Inv(s) && WorkerStep(s, s', i)
    ensures Inv(s')
  {
    WorkerKeepsMutex(s, s', i);
    WorkerKeepsQueue(s, s', i);
    WorkerKeepsWakeups(s, s', i);
    WorkerKeepsStop(s, s', i);
  }

  lemma SpuriousKeepsInv(s: State, s': State)
    requires Inv(s) && SpuriousStep(s, s')
    ensures Inv(s')
  {
    hide Ring.Contents;
    if i :| 0 <= i < |s.workers| && s.workers[i] == WWaiting && s' == At(s, i, WWoken) {
      WorkerWokenKeepsInv(s, s', i);
    }
  }

  lemma WorkerWokenKeepsInv(s: State, s': State, i: nat)
    requires Inv(s) && i < |s.workers| && s.workers[i] == WWaiting && s' == At(s, i, WWoken)
    ensures Inv(s')
  {
    hide Ring.Contents, WakeupInv, StopInv;
    WorkerWokenKeepsWakeups(s, s', i);
    WorkerWokenKeepsStop(s, s', i);
  }

  lemma WorkerWokenKeepsStop(s: State, s': State, i: nat)
    requires StopInv(s) && i < |s.workers| && s.workers[i] == WWaiting && s' == At(s, i, WWoken)
    ensures StopInv(s')
  {
    CountUpdate(s.workers, i, WWoken, Counted);
    hide Count;
  }

  lemma WorkerWokenKeepsWakeups(s: State, s': State, i: nat)
    requires WakeupInv(s) && i < |s.workers| && s.workers[i] == WWaiting && s' == At(s, i, WWoken)
    ensures WakeupInv(s')
  {
    CountUpdate(s.workers, i, WWoken, Active);
    hide Count;
    if s.master.MWaiting? && s.ring.Size() != SLOTS {
      var j :| 0 <= j < |s.workers| && s.workers[j] == WSignal;
      assert s'.workers[j] == WSignal;
    }
    if s.master.MWaitingEnd? && s.numThreads <= 0 {
      var j :| 0 <= j < |s.workers| && s.workers[j] == WExitSignal;
      assert s'.workers[j] == WExitSignal;
    }
  }

  lemma StepKeepsInv(s: State, s': State)
    requires Inv(s) && Step(s, s')
    ensures Inv(s')
  {
    if MasterStep(s, s') {
      MasterKeepsInv(s, s');
    } else if i :| 0 <= i < |s.workers| && WorkerStep(s, s', i) {
      WorkerKeepsInv(s, s', i);
    } else if SpuriousStep(s, s') {
      SpuriousKeepsInv(s, s');
    }
  }

  ghost predicate IsRun(run: seq<State>, n: nat) {
    run != [] && Initial(run[0], n) && forall k :: 0 < k < |run| ==> Step(run[k - 1], run[k])
  }

  /** In every interleaving of one producer and n workers, at every moment, the invariant holds. */
  lemma {:induction false} InvHolds(run: seq<State>, n: nat)
    requires IsRun(run, n)
    ensures Inv(run[|run| - 1])
  {
    if |run| == 1 {
      InitialInv(run[0], n);
    } else {
      InvHolds(run[..|run| - 1], n);
      StepKeepsInv(run[|run| - 2], run[|run| - 1]);
    }
  }

  // ---- What it means ----

  /** First in, first out: the sockets handed to workers are the first ones accepted, in order, none twice and
      none lost, and the ring's indices stay small. */
  lemma QueueIsFifo(run: seq<State>, n: nat)
    requires IsRun(run, n)
    ensures var s := run[|run| - 1];
      && s.ring.Ok() && s.consumed <= s.accepted && |s.accepted| - |s.consumed| <= 20
      && s.accepted[|s.consumed|..] == s.ring.Contents()
      && 0 <= s.ring.tail <= 20 && s.ring.tail <= s.ring.head <= 2 * 20
  {
    InvHolds(run, n);
  }

  predicate MasterBlocked(s: State) {
    s.master.MWaiting? || s.master.MWaitingEnd? || s.master.MDone?
    || (s.owner != Nobody && (s.master.MLock? || s.master.MWoken? || s.master.MLockEnd? || s.master.MWokenEnd?))
  }

  lemma MasterMove(s: State) returns (s': State)
    requires Inv(s) && !MasterBlocked(s)
    ensures MasterStep(s, s')
  {
    hide Ring.Contents, Count, WakeupInv;
    match s.master
    case MTop => s' := s.(master := if s.stop == 0 then MSelect else MBroadcast);
    case MSelect => s' := s.(master := MTop);
    case MLock(x) => s' := s.(master := MTest(x), owner := ByMaster);
    case MTest(x) => s' := s.(master := if s.ring.Size() >= SLOTS then MGoSleep(x) else MPut(x));
    case MGoSleep(x) => s' := s.(master := MWaiting(x), owner := Nobody);
    case MWoken(x) => s' := s.(master := MTest(x), owner := ByMaster);
    case MPut(x) => s' := s.(ring := s.ring.Put(x), accepted := s.accepted + [x], master := MSignal);
    case MSignal =>
      WakeAllWakes(s.workers);
      s' := s.(workers := WakeAll(s.workers), master := MUnlock);
    case MUnlock => s' := s.(master := MSelect, owner := Nobody);
    case MBroadcast => s' := s.(workers := WakeAll(s.workers), master := MLockEnd);
    case MLockEnd => s' := s.(master := MTestEnd, owner := ByMaster);
    case MTestEnd => s' := s.(master := if s.numThreads > 0 then MGoSleepEnd else MUnlockEnd);
    case MGoSleepEnd => s' := s.(master := MWaitingEnd, owner := Nobody);
    case MWokenEnd => s' := s.(master := MTestEnd, owner := ByMaster);
    case MUnlockEnd => s' := s.(master := MDestroy, owner := Nobody);
    case MDestroy => s' := s.(master := MDone, stop := 2);
  }

  lemma WakeAllWakes(ws: seq<WorkerPc>)
    ensures Wakes(ws, WakeAll(ws))
  {
    if i :| 0 <= i < |ws| && ws[i] == WWaiting {
      assert WakeAll(ws)[i] == WWoken;
    }
  }

  predicate WorkerBlocked(s: State, w: WorkerPc) {
    w in {WWaiting, WGone} || (s.owner != Nobody && w in {WLock, WWoken, WExitLock})
  }

  lemma WorkerMove(s: State, i: nat) returns (s': State)
    requires Inv(s) && i < |s.workers| && !WorkerBlocked(s, s.workers[i])
    ensures WorkerStep(s, s', i)
  {
    hide Ring.Contents, Count, WakeupInv;
    match s.workers[i]
    case WTop => s' := At(s, i, if s.stop == 0 then WLock else WExitLock);
    case WLock => s' := At(s, i, WTest).(owner := ByWorker(i));
    case WTest => s' := At(s, i, if s.ring.Size() == 0 && s.stop == 0 then WGoSleep else WStopCheck);
    case WGoSleep => s' := At(s, i, WWaiting).(owner := Nobody);
    case WWoken => s' := At(s, i, WTest).(owner := ByWorker(i));
    case WStopCheck => s' := At(s, i, if s.stop != 0 then WStopUnlock else WTake);
    case WTake => s' := At(s, i, WSignal).(ring := s.ring.Take(), consumed := s.consumed + [s.ring.First()]);
    case WSignal => s' := At(s, i, WUnlock).(master := Signalled(s.master));
    case WUnlock => s' := At(s, i, WBusy).(owner := Nobody);
    case WBusy => s' := At(s, i, WTop);
    case WStopUnlock => s' := At(s, i, WExitLock).(owner := Nobody);
    case WExitLock => s' := At(s, i, WExitDec).(owner := ByWorker(i));
    case WExitDec => s' := At(s, i, WExitSignal).(numThreads := s.numThreads - 1);
    case WExitSignal => s' := At(s, i, WExitUnlock).(master := SignalledEnd(s.master));
    case WExitUnlock => s' := At(s, i, WGone).(owner := Nobody);
  }

  /** Nobody waits for somebody who waits: before the stop some thread can always move. After it one can, unless
      the pool has been shut down, the master waits for room in the queue, or a worker sleeps. */
  lemma NoDeadlock(s: State)
    requires Inv(s) && |s.workers| > 0
    requires s.stop == 0 || (!s.master.MWaiting? && !s.master.MDone? && !SomeWaiting(s.workers))
    ensures exists s' :: ThreadStep(s, s')
  {
    hide Ring.Contents, MasterStep, WorkerStep;
    if !MasterBlocked(s) {
      var s' := MasterMove(s);
      assert ThreadStep(s, s');
    } else if i :| 0 <= i < |s.workers| && !WorkerBlocked(s, s.workers[i]) {
      var s' := WorkerMove(s, i);
      assert ThreadStep(s, s');
    } else {
      EverybodyBlocked(s);
    }
  }

  /** When everybody is blocked the mutex is free, and those who wait are owed nothing. */
  lemma EverybodyBlocked(s: State)
    requires Inv(s) && |s.workers| > 0 && MasterBlocked(s)
      && forall i :: 0 <= i < |s.workers| ==> WorkerBlocked(s, s.workers[i])
    ensures s.stop != 0 && (s.master.MWaiting? || s.master.MDone? || SomeWaiting(s.workers))
  {
    hide Ring.Contents, MasterStep, WorkerStep;
    assert s.owner == Nobody by {
      assert s.owner.ByWorker? ==> WorkerBlocked(s, s.workers[s.owner.i]);
    }
    assert forall i :: 0 <= i < |s.workers| ==> s.workers[i] == WWaiting || s.workers[i] == WGone by {
      assert forall i :: 0 <= i < |s.workers| ==> WorkerBlocked(s, s.workers[i]);
    }
    if Count(s.workers, Active) > 0 {
      var i := CountSome(s.workers, Active);
      assert false;
    }
    if s.master.MWaitingEnd? {
      var i := CountSome(s.workers, Counted);
      assert s.workers[i] == WWaiting;
    } else {
      assert s.workers[0] == WWaiting || s.workers[0] == WGone;
    }
  }

  /** Sockets do not wait for workers that wait: before the stop, with a socket in the ring, a worker can move, or
      the master holds the mutex and can. */
  lemma WorkMoves(s: State)
    requires Inv(s) && |s.workers| > 0 && s.stop == 0 && s.ring.Size() > 0
    ensures (exists i, s' :: 0 <= i < |s.workers| && WorkerStep(s, s', i))
      || (s.owner == ByMaster && exists s' :: MasterStep(s, s'))
  {
    hide Ring.Contents, MasterStep, WorkerStep;
    if s.owner == ByMaster {
      OwnerNotBlocked(s);
      var s' := MasterMove(s);
    } else if i :| 0 <= i < |s.workers| && !WorkerBlocked(s, s.workers[i]) {
      var s' := WorkerMove(s, i);
    } else {
      SomeWorkerFree(s);
    }
  }

  lemma OwnerNotBlocked(s: State)
    requires MutexInv(s) && s.owner == ByMaster
    ensures !MasterBlocked(s)
  {
  }

  lemma SomeWorkerFree(s: State)
    requires Inv(s) && |s.workers| > 0 && s.stop == 0 && s.ring.Size() > 0 && s.owner != ByMaster
    ensures exists i :: 0 <= i < |s.workers| && !WorkerBlocked(s, s.workers[i])
  {
    hide Ring.Contents, Ring.Ok, QueueInv, Count;
    if s.owner.ByWorker? {
      assert !WorkerBlocked(s, s.workers[s.owner.i]);
    } else if s.workers[0] != WWaiting {
      assert !Leaving(s.workers[0]) && !WorkerBlocked(s, s.workers[0]);
    } else {
      assert SomeWaiting(s.workers) && !s.master.MSignal?;
      var i := CountSome(s.workers, Active);
      assert !WorkerBlocked(s, s.workers[i]);
    }
  }

  // ---- The shutdown ----

  /** The master has broadcast that the workers shall leave. */
  predicate PastBroadcast(m: MasterPc) { Ending(m) && !m.MBroadcast? }

  /** Some worker sleeps, or has seen an empty queue and no stop and is about to sleep. */
  predicate SomeAsleep(ws: seq<WorkerPc>) {
    exists i :: 0 <= i < |ws| && (ws[i] == WGoSleep || ws[i] == WWaiting)
  }

  /** The broadcast, which is sent without the mutex, misses exactly the workers between test and sleep. */
  lemma BroadcastMisses(s: State, s': State)
    requires Inv(s) && s.master == MBroadcast && MasterStep(s, s')
    ensures PastBroadcast(s'.master)
    ensures SomeAsleep(s'.workers) <==> exists i :: 0 <= i < |s.workers| && s.workers[i] == WGoSleep
  {
    if i :| 0 <= i < |s.workers| && s.workers[i] == WGoSleep {
      assert s'.workers[i] == WGoSleep;
    }
  }

  /** Once it is sent and a worker still sleeps, that stays so, and the shutdown never ends. */
  lemma AsleepStays(s: State, s': State)
    requires Inv(s) && PastBroadcast(s.master) && SomeAsleep(s.workers) && ThreadStep(s, s')
    ensures PastBroadcast(s'.master) && SomeAsleep(s'.workers) && s.stop != 2 && s'.stop != 2
  {
    hide MutexInv, QueueInv, WakeupInv, Count;
    var j :| 0 <= j < |s.workers| && (s.workers[j] == WGoSleep || s.workers[j] == WWaiting);
    assert s.workers[j] != WGone;
    if MasterStep(s, s') {
      assert s'.workers == s.workers;
    } else {
      hide MasterStep;
      var i :| 0 <= i < |s.workers| && WorkerStep(s, s', i);
      WorkerShape(s, s', i);
      if i == j {
        SleeperSleeps(s, s', i);
      }
      hide WorkerStep;
      assert s'.workers[j] == WGoSleep || s'.workers[j] == WWaiting;
    }
  }

  lemma SleeperSleeps(s: State, s': State, i: nat)
    requires i < |s.workers| && WorkerStep(s, s', i) && (s.workers[i] == WGoSleep || s.workers[i] == WWaiting)
    ensures s'.workers[i] == WWaiting
  {
  }

  ghost predicate IsThreadRun(run: seq<State>) {
    run != [] && forall k :: 0 < k < |run| ==> ThreadStep(run[k - 1], run[k])
  }

  lemma {:induction false} ShutdownHangs(run: seq<State>)
    requires IsThreadRun(run) && Inv(run[0]) && PastBroadcast(run[0].master) && SomeAsleep(run[0].workers)
    ensures var s := run[|run| - 1]; Inv(s) && PastBroadcast(s.master) && SomeAsleep(s.workers) && s.stop == 1
  {
    hide Inv, ThreadStep, PastBroadcast, SomeAsleep;
    if |run| > 1 {
      var s, s' := run[|run| - 2], run[|run| - 1];
      ShutdownHangs(run[..|run| - 1]);
      AsleepStays(s, s');
      StepKeepsInv(s, s');
    }
    StopOne(run[|run| - 1]);
  }

  lemma StopOne(s: State)
    requires Inv(s) && PastBroadcast(s.master) && SomeAsleep(s.workers)
    ensures s.stop == 1
  {
    hide Ring.Contents, Count, QueueInv, WakeupInv;
  }

  function WorkerRank(w: WorkerPc): nat {
    match w
    case WTake => 14 case WSignal => 13 case WUnlock => 12 case WBusy => 11 case WTop => 10 case WLock => 9
    case WWoken => 8 case WTest => 7 case WStopCheck => 6 case WStopUnlock => 5 case WExitLock => 4
    case WExitDec => 3 case WExitSignal => 2
    case WExitUnlock => 1 case WGoSleep => 1 case _ => 0
  }

  function MasterRank(m: MasterPc): nat {
    match m
    case MLockEnd => 6 case MWokenEnd => 6 case MTestEnd => 5 case MGoSleepEnd => 4 case MWaitingEnd => 3
    case MUnlockEnd => 2 case MDestroy => 1 case _ => 0
  }

  function Ranks(ws: seq<WorkerPc>): nat {
    if ws == [] then 0 else Ranks(ws[..|ws| - 1]) + WorkerRank(ws[|ws| - 1])
  }

  /** How many steps the shutdown still takes at most. */
  function ShutdownRank(s: State): nat { 10 * Ranks(s.workers) + MasterRank(s.master) }

  lemma {:induction false} RanksUpdate(ws: seq<WorkerPc>, i: nat, w: WorkerPc)
    requires i < |ws|
    ensures Ranks(ws[i := w]) + WorkerRank(ws[i]) == Ranks(ws) + WorkerRank(w)
  {
    var front := ws[..|ws| - 1];
    if i == |ws| - 1 {
      assert ws[i := w][..|ws| - 1] == front;
    } else {
      assert ws[i := w][..|ws| - 1] == front[i := w];
      RanksUpdate(front, i, w);
    }
  }

  lemma MasterAdvances(s: State, s': State)
    requires Inv(s) && PastBroadcast(s.master) && !SomeAsleep(s.workers) && MasterStep(s, s')
    ensures PastBroadcast(s'.master) && s'.workers == s.workers && MasterRank(s'.master) < MasterRank(s.master)
  {
    hide MutexInv, QueueInv, WakeupInv, SomeAsleep;
  }

  lemma WorkerAdvances(s: State, s': State, i: nat)
    requires Inv(s) && PastBroadcast(s.master) && !SomeAsleep(s.workers) && i < |s.workers| && WorkerStep(s, s', i)
    ensures PastBroadcast(s'.master) && !SomeAsleep(s'.workers) && MasterRank(s'.master) <= MasterRank(s.master) + 3
    ensures WorkerRank(s'.workers[i]) < WorkerRank(s.workers[i]) && s'.workers == s.workers[i := s'.workers[i]]
  {
    hide MutexInv, QueueInv, WakeupInv, Count;
  }

  /** If nobody is asleep after the broadcast, nobody falls asleep any more, and every step brings the end closer. */
  lemma ShutdownAdvances(s: State, s': State)
    requires Inv(s) && PastBroadcast(s.master) && !SomeAsleep(s.workers) && ThreadStep(s, s')
    ensures PastBroadcast(s'.master) && !SomeAsleep(s'.workers) && ShutdownRank(s') < ShutdownRank(s)
  {
    hide Inv, Ranks, MasterStep, WorkerStep, PastBroadcast, SomeAsleep, WorkerRank, MasterRank;
    if MasterStep(s, s') {
      MasterAdvances(s, s');
    } else {
      var i :| 0 <= i < |s.workers| && WorkerStep(s, s', i);
      WorkerAdvances(s, s', i);
      RanksUpdate(s.workers, i, s'.workers[i]);
    }
  }

  /** So if no worker was between test and sleep at the broadcast, the shutdown ends: whatever the threads do,
      it takes no more than a bounded number of steps, and it only stops when every worker is gone. */
  lemma {:induction false} ShutdownEnds(run: seq<State>)
    requires IsThreadRun(run) && Inv(run[0]) && PastBroadcast(run[0].master) && !SomeAsleep(run[0].workers)
      && |run[0].workers| > 0
    ensures |run| <= ShutdownRank(run[0]) + 1
    ensures var s := run[|run| - 1];
      (exists s' :: ThreadStep(s, s')) || (s.stop == 2 && forall i :: 0 <= i < |s.workers| ==> s.workers[i] == WGone)
  {
    ShutdownRun(run);
    var s := run[|run| - 1];
    hide Inv, ThreadStep, ShutdownRank;
    assert !SomeWaiting(s.workers);
    if s.master != MDone {
      NoDeadlock(s);
    } else {
      assert s.stop == 2 && forall i :: 0 <= i < |s.workers| ==> s.workers[i] == WGone by {
        DoneIsDone(s);
      }
    }
  }

  lemma DoneIsDone(s: State)
    requires Inv(s) && s.master == MDone
    ensures s.stop == 2 && forall i :: 0 <= i < |s.workers| ==> s.workers[i] == WGone
  {
  }

  lemma {:induction false} ShutdownRun(run: seq<State>)
    requires IsThreadRun(run) && Inv(run[0]) && PastBroadcast(run[0].master) && !SomeAsleep(run[0].workers)
    ensures var s := run[|run| - 1];
      && Inv(s) && PastBroadcast(s.master) && !SomeAsleep(s.workers)
      && |s.workers| == |run[0].workers| && ShutdownRank(s) + |run| <= ShutdownRank(run[0]) + 1
  {
    hide Inv, ThreadStep, PastBroadcast, SomeAsleep, ShutdownRank;
    if |run| > 1 {
      var s, s' := run[|run| - 2], run[|run| - 1];
      ShutdownRun(run[..|run| - 1]);
      ShutdownAdvances(s, s');
      StepKeepsInv(s, s');
      SameWorkers(s, s');
    }
  }

  lemma SameWorkers(s: State, s': State)
    requires ThreadStep(s, s')
    ensures |s'.workers| == |s.workers|
  {
    hide WorkerStep, MasterStep;
    if MasterStep(s, s') {
      MasterKeepsNumber(s, s');
    } else {
      var i :| 0 <= i < |s.workers| && WorkerStep(s, s', i);
      WorkerKeepsNumber(s, s', i);
    }
  }

  lemma MasterKeepsNumber(s: State, s': State)
    requires MasterStep(s, s')
    ensures |s'.workers| == |s.workers|
  {
    hide Ring.Ok, Ring.Put;
  }

  lemma WorkerKeepsNumber(s: State, s': State, i: nat)
    requires i < |s.workers| && WorkerStep(s, s', i)
    ensures |s'.workers| == |s.workers|
  {
    hide Ring.Ok, Ring.Take, Ring.First;
  }

  /** The flag says 2 only when every worker is gone and nobody will touch the mutex again. */
  lemma StoppedMeansGone(run: seq<State>, n: nat)
    requires IsRun(run, n)
    ensures var s := run[|run| - 1];
      && s.numThreads == Count(s.workers, Counted)
      && (s.stop == 2 || s.master.MDestroy? ==>
          s.owner == Nobody && forall i :: 0 <= i < |s.workers| ==> s.workers[i] == WGone)
  {
    InvHolds(run, n);
  }

  /** A run with one worker that ends in a shutdown that hangs: the worker finds the queue empty and no stop,
      the stop comes, the master broadcasts to nobody, and then the worker goes to sleep. */
  lemma HangingRun() returns (run: seq<State>)
    ensures IsRun(run, 1) && PastBroadcast(run[|run| - 1].master) && SomeAsleep(run[|run| - 1].workers)
  {
    var s0 := State(Ring(seq(SLOTS, _ => 0), 0, 0), MTop, seq(1, _ => WTop), Nobody, 0, 1, [], []);
    var s1 := At(s0, 0, WLock);
    var s2 := At(s1, 0, WTest).(owner := ByWorker(0));
    var s3 := At(s2, 0, WGoSleep);
    var s4 := s3.(stop := 1);
    var s5 := s4.(master := MBroadcast);
    var s6 := s5.(workers := WakeAll(s5.workers), master := MLockEnd);
    run := [s0, s1, s2, s3, s4, s5, s6];
    assert WorkerStep(s0, s1, 0) && WorkerStep(s1, s2, 0) && WorkerStep(s2, s3, 0);
    assert StopStep(s3, s4) && MasterStep(s4, s5) && MasterStep(s5, s6);
    assert s6.workers[0] == WGoSleep;
  }

  // ---- A master that waits for room ----

  /** Some worker is about to take a socket, or has taken one and is about to say so. */
  predicate SomeSignalComes(ws: seq<WorkerPc>) {
    exists i :: 0 <= i < |ws| && (ws[i] == WTake || ws[i] == WSignal)
  }

  /** After the stop no worker begins to take a socket. If none is about to, a master that waits for room waits. */
  lemma RoomNeverComes(s: State, s': State)
    requires Inv(s) && s.stop != 0 && s.master.MWaiting? && !SomeSignalComes(s.workers) && ThreadStep(s, s')
    ensures s'.master == s.master && s'.stop == s.stop && !SomeSignalComes(s'.workers)
  {
    hide Inv, WorkerStep;
    var i :| 0 <= i < |s.workers| && WorkerStep(s, s', i);
    hide MasterStep;
    WorkerShape(s, s', i);
    NoNewSignal(s, s', i);
  }

  lemma NoNewSignal(s: State, s': State, i: nat)
    requires i < |s.workers| && WorkerStep(s, s', i) && s.stop != 0 && s.master.MWaiting?
    requires s.workers[i] != WTake && s.workers[i] != WSignal
    ensures s'.master == s.master && s'.workers[i] != WTake && s'.workers[i] != WSignal
  {
    hide Ring.Ok, Ring.Put, Ring.Take, Ring.First;
  }

  /** So whatever the threads do, it waits for ever, and the shutdown never ends. */
  lemma {:induction false} MasterHangs(run: seq<State>)
    requires IsThreadRun(run) && Inv(run[0]) && run[0].stop != 0 && run[0].master.MWaiting?
      && !SomeSignalComes(run[0].workers)
    ensures var s := run[|run| - 1]; Inv(s) && s.master == run[0].master && s.stop == 1 && !SomeSignalComes(s.workers)
  {
    hide Inv, ThreadStep, SomeSignalComes;
    if |run| > 1 {
      var s, s' := run[|run| - 2], run[|run| - 1];
      MasterHangs(run[..|run| - 1]);
      RoomNeverComes(s, s');
      StepKeepsInv(s, s');
    } else {
      WaitingIsNotDone(run[0]);
    }
  }

  lemma WaitingIsNotDone(s: State)
    requires Inv(s) && s.stop != 0 && s.master.MWaiting?
    ensures s.stop == 1
  {
    hide MutexInv, QueueInv, WakeupInv, Count;
  }

  /** If one is about to, it gets to signal: until then every step of whatever thread brings it closer. */
  lemma SignalComesCloser(s: State, s': State)
    requires Inv(s) && s.stop != 0 && s.master.MWaiting? && SomeSignalComes(s.workers) && ThreadStep(s, s')
      && s'.master.MWaiting?
    ensures s'.stop == s.stop && SomeSignalComes(s'.workers) && Ranks(s'.workers) < Ranks(s.workers)
  {
    hide Inv, Ranks, WorkerStep;
    var i :| 0 <= i < |s.workers| && WorkerStep(s, s', i);
    hide MasterStep;
    WorkerShape(s, s', i);
    RankFalls(s, s', i);
    RanksUpdate(s.workers, i, s'.workers[i]);
    var j :| 0 <= j < |s.workers| && (s.workers[j] == WTake || s.workers[j] == WSignal);
    assert s'.workers[j] == WTake || s'.workers[j] == WSignal;
  }

  lemma RankFalls(s: State, s': State, i: nat)
    requires i < |s.workers| && WorkerStep(s, s', i) && s.stop != 0 && s.master.MWaiting? && s'.master.MWaiting?
    ensures WorkerRank(s'.workers[i]) < WorkerRank(s.workers[i])
    ensures s.workers[i] == WTake || s.workers[i] == WSignal ==> s'.workers[i] == WSignal
  {
    hide Ring.Ok, Ring.Put, Ring.Take, Ring.First;
  }

  /** So in every run of the threads the master is woken: a run in which it is not is short, and can be continued. */
  lemma {:induction false} MasterIsWoken(run: seq<State>)
    requires IsThreadRun(run) && Inv(run[0]) && run[0].stop != 0 && SomeSignalComes(run[0].workers)
    requires forall k :: 0 <= k < |run| ==> run[k].master.MWaiting?
    ensures var s := run[|run| - 1];
      && Inv(s) && s.stop != 0 && SomeSignalComes(s.workers) && Ranks(s.workers) + |run| <= Ranks(run[0].workers) + 1
      && exists s' :: ThreadStep(s, s')
  {
    hide Inv, ThreadStep, SomeSignalComes, Ranks;
    if |run| > 1 {
      var s, s' := run[|run| - 2], run[|run| - 1];
      MasterIsWoken(run[..|run| - 1]);
      SignalComesCloser(s, s');
      StepKeepsInv(s, s');
    }
    SignallerMoves(run[|run| - 1]);
  }

  lemma SignallerMoves(s: State)
    requires Inv(s) && SomeSignalComes(s.workers)
    ensures exists s' :: ThreadStep(s, s')
  {
    hide Inv, MasterStep, WorkerStep;
    var j :| 0 <= j < |s.workers| && (s.workers[j] == WTake || s.workers[j] == WSignal);
    var s' := WorkerMove(s, j);
    assert ThreadStep(s, s');
  }

  /** A master with room in the ring, and one worker that has not begun. */
  predicate Queueing(s: State) {
    && s.ring.Ok() && s.master == MSelect && s.workers == [WTop] && s.owner == Nobody && s.stop == 0
    && s.numThreads == 1
  }

  /** The master queues one more socket. */
  lemma QueueOne(s: State) returns (path: seq<State>)
    requires Queueing(s) && s.ring.Size() < SLOTS
    ensures |path| == 6 && MasterStep(s, path[0]) && forall k :: 0 < k < 6 ==> MasterStep(path[k - 1], path[k])
    ensures Queueing(path[5]) && path[5].ring.Size() == s.ring.Size() + 1
  {
    PutIsLast(s.ring, 0);
    PutGrows(s.ring);
    hide Ring.Contents, Ring.Put, Ring.Size;
    var s1 := s.(master := MLock(0));
    var s2 := s.(master := MTest(0), owner := ByMaster);
    var s3 := s2.(master := MPut(0));
    var s4 := s2.(master := MSignal, ring := s.ring.Put(0), accepted := s.accepted + [0]);
    var s5 := s4.(master := MUnlock);
    var s6 := s5.(master := MSelect, owner := Nobody);
    path := [s1, s2, s3, s4, s5, s6];
    assert Wakes(s4.workers, s5.workers);
  }

  /** The master queues k sockets while the only worker has not begun. */
  lemma {:induction false} FillRing(k: nat) returns (run: seq<State>)
    requires k <= 20
    ensures IsRun(run, 1)
    ensures Queueing(run[|run| - 1]) && run[|run| - 1].ring.Size() == k
  {
    if k == 0 {
      var s0 := State(Ring(seq(SLOTS, _ => 0), 0, 0), MTop, seq(1, _ => WTop), Nobody, 0, 1, [], []);
      var s1 := s0.(master := MSelect);
      run := [s0, s1];
      assert MasterStep(s0, s1);
    } else {
      var before := FillRing(k - 1);
      var path := QueueOne(before[|before| - 1]);
      hide Initial, MasterStep, Queueing;
      run := before + path;
    }
  }

  lemma PutGrows(r: Ring)
    requires r.Ok() && r.Size() < SLOTS
    ensures r.Put(0).Size() == r.Size() + 1
  {
  }

  /** The ring fills, the master waits for room, and the stop comes. */
  lemma MasterWaits() returns (run: seq<State>)
    ensures IsRun(run, 1)
    ensures var s := run[|run| - 1];
      && s.stop == 1 && s.master == MWaiting(0) && s.workers == [WTop]
      && s.owner == Nobody && s.numThreads == 1
  {
    var before := FillRing(SLOTS);
    var s := before[|before| - 1];
    hide Ring.Ok, Ring.Contents;
    var s1 := s.(master := MLock(0));
    var s2 := s.(master := MTest(0), owner := ByMaster);
    var s3 := s2.(master := MGoSleep(0));
    var s4 := s.(master := MWaiting(0));
    var s5 := s4.(stop := 1);
    assert MasterStep(s, s1) && MasterStep(s1, s2) && MasterStep(s2, s3) && MasterStep(s3, s4) && StopStep(s4, s5);
    hide MasterStep, Initial;
    run := before + [s1, s2, s3, s4, s5];
  }

  /** A run in which that happens: the worker, which has not looked into the full ring, leaves. After it no thread
      can ever move again. */
  lemma FullRun() returns (run: seq<State>)
    ensures IsRun(run, 1)
    ensures var s := run[|run| - 1];
      && s.stop == 1 && s.master.MWaiting? && s.workers == [WGone]
      && !exists s' :: ThreadStep(s, s')
  {
    var before := MasterWaits();
    var after := OnlyWorkerLeaves(before[|before| - 1]);
    NobodyLeft(after[4]);
    hide Step, ThreadStep, Initial;
    run := before + after;
  }

  lemma OnlyWorkerLeaves(s: State) returns (run: seq<State>)
    requires s.stop == 1 && s.master.MWaiting? && s.workers == [WTop] && s.owner == Nobody
    ensures |run| == 5 && Step(s, run[0]) && forall i :: 0 < i < 5 ==> Step(run[i - 1], run[i])
    ensures run[4].stop == 1 && run[4].master.MWaiting? && run[4].workers == [WGone]
  {
    var s1 := s.(workers := [WExitLock]);
    var s2 := s.(workers := [WExitDec], owner := ByWorker(0));
    var s3 := s2.(workers := [WExitSignal], numThreads := s.numThreads - 1);
    var s4 := s3.(workers := [WExitUnlock]);
    var s5 := s4.(workers := [WGone], owner := Nobody);
    assert WorkerStep(s, s1, 0) && WorkerStep(s1, s2, 0) && WorkerStep(s2, s3, 0) && WorkerStep(s3, s4, 0)
      && WorkerStep(s4, s5, 0);
    hide MasterStep, WorkerStep, StopStep, SpuriousStep;
    run := [s1, s2, s3, s4, s5];
  }

  lemma NobodyLeft(s: State)
    requires s.master.MWaiting? && s.workers == [WGone]
    ensures !exists s' :: ThreadStep(s, s')
  {
  }
}
