/**
 The life of instance controllers under the manager: any number of goroutines ensure or remove
 controllers for any number of managed resources, while every started controller runs in a
 goroutine of its own that may return from Start at any moment, with or without an error.

 The controllers mutex records its owners, so mutual exclusion is a guard here. Every access to the
 map, every cancel, every channel operation and every fallible call is one atomic step.
 */
module ControllerLifecycle {
  import opened History
  import opened Wrappers

  type Tid = nat
  type Cid = nat
  type Key = string
  type Hash = string

  datatype StartError = Failed(message: string) | ErrStopped

  /** Progress of the goroutine that runs a controller. */
  datatype Phase = Idle | Running | Returned(err: Option<StartError>) | Published | Closed

  /** A resource controller together with the cancel function of its context. */
  datatype Controller = Controller(
    key: Key,
    hash: Hash,
    stopped: bool,
    phase: Phase,
    startErr: Option<StartError>)
  {
    predicate Started() { !phase.Idle? }

    predicate Done() { phase.Closed? }

    /** startErr is handed out only once done is closed. */
    function StartErr(): Option<StartError> { if Done() then startErr else None }
  }

  datatype Op = Ensure(key: Key, hash: Hash) | Remove(key: Key)

  /** R: holds the read lock, W: holds the write lock. */
  datatype Pc =
    | Entry
    | Peek                                // R
    | ReleaseHit(c: Cid)                  // R
    | ReleaseMiss                         // R
    | ReleaseAbsent                       // R
    | WantLock
    | Check                               // W
    | StopOld(c: Cid)                     // W
    | WaitOld(c: Cid)                     // W
    | DeleteOld(c: Cid)                   // W
    | Configure                           // W
    | NewController(c: Cid)               // W
    | BuildCache(c: Cid)                  // W
    | WatchChannel(c: Cid)                // W
    | Launch(c: Cid)                      // W
    | Store(c: Cid)                       // W
    | Release(result: Option<Cid>)        // W
    | Finished(result: Option<Cid>)
  {
    predicate HoldsRead() { Peek? || ReleaseHit? || ReleaseMiss? || ReleaseAbsent? }

    predicate HoldsWrite() {
      !HoldsRead() && !Entry? && !WantLock? && !Finished?
    }

    /** The context of controller c exists but the controller has not been launched. */
    predicate Building(c: Cid) {
      this == NewController(c) || this == BuildCache(c) || this == WatchChannel(c) || this == Launch(c)
    }
  }

  datatype Thread = Thread(op: Op, pc: Pc)

  datatype State = State(
    threads: map<Tid, Thread>,
    readers: set<Tid>,
    writer: Option<Tid>,
    ctls: seq<Controller>,
    controllers: map<Key, Cid>)
  {
    function Goto(t: Tid, pc: Pc): State
      requires t in threads
    {
      this.(threads := threads[t := threads[t].(pc := pc)])
    }

    function Cancel(c: Cid): State
      requires c < |ctls|
    {
      this.(ctls := ctls[c := ctls[c].(stopped := true)])
    }

    function SetPhase(c: Cid, phase: Phase): State
      requires c < |ctls|
    {
      this.(ctls := ctls[c := ctls[c].(phase := phase)])
    }
  }

  datatype Event =
    | Begin(t: Tid, op: Op)
    | RLock(t: Tid)
    | RUnlock(t: Tid)
    | Lock(t: Tid)
    | Unlock(t: Tid)
    | Look(t: Tid)             // read the map, under either lock
    | Stop(t: Tid, c: Cid)     // c.stop()
    | AwaitDone(t: Tid, c: Cid)
    | Delete(t: Tid)
    | NewContext(t: Tid, c: Cid)
    | Succeed(t: Tid)
    | Fail(t: Tid)
    | Go(t: Tid, c: Cid)
    | Register(t: Tid, c: Cid)
    | CtlReturn(c: Cid, err: Option<StartError>)
    | CtlPublish(c: Cid)
    | CtlClose(c: Cid)

  predicate ByController(e: Event) { e.CtlReturn? || e.CtlPublish? || e.CtlClose? }

  predicate Init(s: State) {
    s.threads == map[] && s.readers == {} && s.writer == None && s.ctls == [] && s.controllers == map[]
  }

  predicate Step(s: State, e: Event, s': State) {
    if e.Begin? then
      && (e.t in s.threads ==> s.threads[e.t].pc.Finished?)
      && s' == s.(threads := s.threads[e.t := Thread(e.op, Entry)])
    else if ByController(e) then ControllerStep(s, e, s')
    else e.t in s.threads && ThreadStep(s, e, s', s.threads[e.t])
  }

  /** The goroutine around dynCtrl.Start: a nil result becomes ErrStopped, then startErr, then close(done). */
  predicate ControllerStep(s: State, e: Event, s': State)
    requires ByController(e)
  {
    e.c < |s.ctls| &&
    var ctl := s.ctls[e.c];
    match e
    case CtlReturn(c, err) => ctl.phase.Running? && s' == s.SetPhase(c, Returned(err))
    case CtlPublish(c) =>
      && ctl.phase.Returned?
      && var err := if ctl.phase.err == None then Some(ErrStopped) else ctl.phase.err;
      s' == s.(ctls := s.ctls[c := ctl.(startErr := err, phase := Published)])
    case CtlClose(c) => ctl.phase.Published? && s' == s.SetPhase(c, Closed)
  }

  predicate ThreadStep(s: State, e: Event, s': State, th: Thread)
    requires !e.Begin? && !ByController(e) && e.t in s.threads && th == s.threads[e.t]
  {
    var t, pc, k := e.t, th.pc, th.op.key;
    match e
    case RLock(_) => pc.Entry? && s.writer == None && s' == s.(readers := s.readers + {t}).Goto(t, Peek)
    case RUnlock(_) =>
      var s1 := s.(readers := s.readers - {t});
      || (pc.ReleaseHit? && s' == s1.Goto(t, Finished(Some(pc.c))))
      || (pc.ReleaseMiss? && s' == s1.Goto(t, WantLock))
      || (pc.ReleaseAbsent? && s' == s1.Goto(t, Finished(None)))
    case Lock(_) =>
      pc.WantLock? && s.writer == None && s.readers == {} && s' == s.(writer := Some(t)).Goto(t, Check)
    case Unlock(_) => pc.Release? && s' == s.(writer := None).Goto(t, Finished(pc.result))
    case Look(_) => (pc.Peek? || pc.Check?) && s' == s.Goto(t, AfterLook(s, th))
    case Stop(_, c) =>
      pc == StopOld(c) && c < |s.ctls| && s' == s.Cancel(c).Goto(t, if th.op.Ensure? then WaitOld(c) else DeleteOld(c))
    case AwaitDone(_, c) => pc == WaitOld(c) && c < |s.ctls| && s.ctls[c].Done() && s' == s.Goto(t, DeleteOld(c))
    case Delete(_) =>
      pc.DeleteOld? && s' == s.(controllers := s.controllers - {k}).Goto(t, if th.op.Ensure? then Configure else Release(None))
    case NewContext(_, c) =>
      && pc.Configure? && th.op.Ensure? && c == |s.ctls|
      && s' == s.(ctls := s.ctls + [Controller(k, th.op.hash, false, Idle, None)]).Goto(t, NewController(c))
    case Succeed(_) =>
      || (pc.NewController? && s' == s.Goto(t, BuildCache(pc.c)))
      || (pc.BuildCache? && s' == s.Goto(t, WatchChannel(pc.c)))
      || (pc.WatchChannel? && s' == s.Goto(t, Launch(pc.c)))
    case Fail(_) =>
      || (pc.Configure? && s' == s.Goto(t, Release(None)))
      || ((pc.NewController? || pc.BuildCache?) && pc.c < |s.ctls| && s' == s.Cancel(pc.c).Goto(t, Release(None)))
      || (pc.WatchChannel? && s' == s.Goto(t, Release(None)))
    case Go(_, c) => pc == Launch(c) && c < |s.ctls| && s' == s.SetPhase(c, Running).Goto(t, Store(c))
    case Register(_, c) => pc == Store(c) && s' == s.(controllers := s.controllers[k := c]).Goto(t, Release(Some(c)))
  }

  /** Both looks at the map: the optimistic one under the read lock and the decisive one under the write lock. */
  function AfterLook(s: State, th: Thread): Pc {
    var k := th.op.key;
    var locked := th.pc.Check?;
    if k !in s.controllers then
      if th.op.Remove? then (if locked then Release(None) else ReleaseAbsent)
      else if locked then Configure else ReleaseMiss
    else
      var c := s.controllers[k];
      if th.op.Ensure? && c < |s.ctls| && s.ctls[c].hash == th.op.hash then
        if locked then Release(Some(c)) else ReleaseHit(c)
      else if locked then StopOld(c) else ReleaseMiss
  }

  datatype Run = Run(states: seq<State>, events: seq<Event>)
  {
    ghost predicate Valid() {
      && |states| == |events| + 1
      && Init(states[0])
      && forall i :: 0 <= i < |events| ==> Step(states[i], events[i], states[i + 1])
    }
  }

  // ---- the invariant ----

  ghost predicate LockInv(s: State) {
    && (forall t :: t in s.readers <==> t in s.threads && s.threads[t].pc.HoldsRead())
    && (forall t :: s.writer == Some(t) <==> t in s.threads && s.threads[t].pc.HoldsWrite())
    && (s.writer.Some? ==> s.readers == {})
  }

  /** The controller c belongs to the call and has been launched at some time. */
  predicate Yields(s: State, op: Op, c: Cid) {
    c < |s.ctls| && op.Ensure? && s.ctls[c].key == op.key && s.ctls[c].hash == op.hash && s.ctls[c].Started()
  }

  /** The controller c stands under the call's key, and a removal or an ensure with another hash wants it gone. */
  predicate Unwanted(s: State, op: Op, c: Cid) {
    op.key in s.controllers && s.controllers[op.key] == c && c < |s.ctls| && (op.Ensure? ==> s.ctls[c].hash != op.hash)
  }

  predicate ThreadOk(s: State, th: Thread) {
    var k := th.op.key;
    match th.pc
    case ReleaseHit(c) => Yields(s, th.op, c)
    case ReleaseMiss => true
    case ReleaseAbsent => th.op.Remove?
    case StopOld(c) => Unwanted(s, th.op, c)
    case WaitOld(c) => Unwanted(s, th.op, c) && s.ctls[c].stopped && th.op.Ensure?
    case DeleteOld(c) => Unwanted(s, th.op, c) && s.ctls[c].stopped && (th.op.Ensure? ==> s.ctls[c].Done())
    case Configure => k !in s.controllers && th.op.Ensure?
    case Store(c) => k !in s.controllers && Yields(s, th.op, c) && !s.ctls[c].stopped
    case Release(res) => res.Some? ==> Yields(s, th.op, res.value)
    case Finished(res) => res.Some? ==> Yields(s, th.op, res.value)
    case NewController(c) => Unlaunched(s, th.op, c)
    case BuildCache(c) => Unlaunched(s, th.op, c)
    case WatchChannel(c) => Unlaunched(s, th.op, c)
    case Launch(c) => Unlaunched(s, th.op, c)
    case _ => true
  }

  /** The call's own new controller, known to nobody else yet. */
  predicate Unlaunched(s: State, op: Op, c: Cid) {
    && op.Ensure? && op.key !in s.controllers && c < |s.ctls|
    && s.ctls[c] == Controller(op.key, op.hash, false, Idle, None)
  }

  /** The write lock holder is at pc. */
  predicate WriterAt(s: State, pc: Pc) {
    s.writer.Some? && s.writer.value in s.threads && s.threads[s.writer.value].pc == pc
  }

  predicate InMap(s: State, c: Cid)
    requires c < |s.ctls|
  {
    s.ctls[c].key in s.controllers && s.controllers[s.ctls[c].key] == c
  }

  predicate ControllerOk(s: State, c: Cid)
    requires c < |s.ctls|
  {
    var ctl := s.ctls[c];
    && (ctl.startErr.Some? <==> ctl.phase.Published? || ctl.phase.Closed?)
    && (ctl.Started() && !ctl.stopped ==> InMap(s, c) || WriterAt(s, Store(c)))
    && (InMap(s, c) ==> ctl.Started() && (ctl.stopped ==> WriterAt(s, WaitOld(c)) || WriterAt(s, DeleteOld(c))))
  }

  ghost predicate MapOk(s: State) {
    forall k :: k in s.controllers ==> s.controllers[k] < |s.ctls| && s.ctls[s.controllers[k]].key == k
  }

  ghost predicate Inv(s: State) {
    && LockInv(s)
    && (forall t :: t in s.threads ==> ThreadOk(s, s.threads[t]))
    && MapOk(s)
    && (forall c :: 0 <= c < |s.ctls| ==> ControllerOk(s, c))
  }

  /** What never changes back about a controller. */
  predicate Grows(s: State, s': State) {
    && |s.ctls| <= |s'.ctls|
    && forall c :: 0 <= c < |s.ctls| ==>
         && s'.ctls[c].key == s.ctls[c].key && s'.ctls[c].hash == s.ctls[c].hash
         && (s.ctls[c].Started() ==> s'.ctls[c].Started())
         && (s.ctls[c].stopped ==> s'.ctls[c].stopped)
         && (s.ctls[c].Done() ==> s'.ctls[c].Done())
  }

  /** Who takes a step is where the invariant has it. */
  lemma ActorOk(s: State, e: Event, s': State)
    requires Inv(s) && Step(s, e, s') && !e.Begin? && !ByController(e)
    ensures e.t in s.threads && ThreadOk(s, s.threads[e.t]) && ThreadStep(s, e, s', s.threads[e.t])
    ensures s.threads[e.t].pc.HoldsWrite() <==> s.writer == Some(e.t)
  {
    hide ThreadOk, ThreadStep, ControllerOk, MapOk;
  }

  lemma ThreadFrame(s: State, e: Event, s': State)
    requires !e.Begin? && !ByController(e) && Step(s, e, s')
    ensures e.t in s'.threads && s'.threads == s.threads[e.t := s'.threads[e.t]]
    ensures !s.threads[e.t].pc.HoldsWrite() ==> s'.ctls == s.ctls && s'.controllers == s.controllers
  {
    assert ThreadStep(s, e, s', s.threads[e.t]);
  }

  lemma ThreadGrows(s: State, e: Event, s': State)
    requires !e.Begin? && !ByController(e) && Step(s, e, s')
    requires ThreadOk(s, s.threads[e.t])
    ensures Grows(s, s')
  {
    assert ThreadStep(s, e, s', s.threads[e.t]);
  }

  lemma ControllerEffect(s: State, e: Event, s': State)
    requires ByController(e) && Step(s, e, s')
    ensures Grows(s, s')
    ensures s'.threads == s.threads && s'.controllers == s.controllers && s'.writer == s.writer && s'.readers == s.readers
    ensures e.c < |s.ctls| && |s'.ctls| == |s.ctls| && !s.ctls[e.c].phase.Idle?
    ensures forall c :: 0 <= c < |s.ctls| ==> s'.ctls[c].stopped == s.ctls[c].stopped
    ensures forall c :: 0 <= c < |s.ctls| && s.ctls[c].phase.Idle? ==> s'.ctls[c] == s.ctls[c]
  {
  }

  lemma StepGrows(s: State, e: Event, s': State)
    requires Inv(s) && Step(s, e, s')
    ensures Grows(s, s')
    ensures e.Begin? ==> s'.ctls == s.ctls && s'.controllers == s.controllers
    ensures !e.Begin? && !ByController(e) && !s.threads[e.t].pc.HoldsWrite() ==> s'.ctls == s.ctls && s'.controllers == s.controllers
    ensures !ByController(e) ==> e.t in s'.threads && s'.threads == s.threads[e.t := s'.threads[e.t]]
    ensures ByController(e) ==>
              && s'.threads == s.threads && s'.controllers == s.controllers && s'.writer == s.writer && s'.readers == s.readers
              && e.c < |s.ctls| && |s'.ctls| == |s.ctls| && !s.ctls[e.c].phase.Idle?
              && (forall c :: 0 <= c < |s.ctls| ==> s'.ctls[c].stopped == s.ctls[c].stopped)
              && (forall c :: 0 <= c < |s.ctls| && s.ctls[c].phase.Idle? ==> s'.ctls[c] == s.ctls[c])
  {
    if ByController(e) {
      ControllerEffect(s, e, s');
    } else if !e.Begin? {
      ThreadFrame(s, e, s');
      ThreadGrows(s, e, s');
    }
  }

  predicate Held(s: State, t: Tid, write: bool) {
    t in s.threads && if write then s.threads[t].pc.HoldsWrite() else s.threads[t].pc.HoldsRead()
  }

  lemma LockEffect(s: State, e: Event, s': State)
    requires Step(s, e, s') && !ByController(e)
    ensures Held(s', e.t, false) && !Held(s, e.t, false) ==> s.writer == None && s'.readers == s.readers + {e.t}
    ensures Held(s, e.t, false) && !Held(s', e.t, false) ==> s'.readers == s.readers - {e.t}
    ensures Held(s, e.t, false) == Held(s', e.t, false) ==> s'.readers == s.readers
    ensures Held(s', e.t, true) && !Held(s, e.t, true) ==> s.writer == None && s.readers == {} && s'.writer == Some(e.t)
    ensures Held(s, e.t, true) && !Held(s', e.t, true) ==> s'.writer == None
    ensures Held(s, e.t, true) == Held(s', e.t, true) ==> s'.writer == s.writer
  {
    if !e.Begin? {
      assert ThreadStep(s, e, s', s.threads[e.t]);
      hide Step, ThreadStep, Held;
      if e.RLock? || e.RUnlock? {
        ReadLockEffect(s, e, s');
      } else if e.Lock? || e.Unlock? {
        WriteLockEffect(s, e, s');
      } else {
        NoLockEffect(s, e, s');
      }
    }
  }

  lemma ReadLockEffect(s: State, e: Event, s': State)
    requires (e.RLock? || e.RUnlock?) && e.t in s.threads && ThreadStep(s, e, s', s.threads[e.t])
    ensures s'.writer == s.writer && !Held(s, e.t, true) && !Held(s', e.t, true)
    ensures e.RLock? ==> s.writer == None && s'.readers == s.readers + {e.t} && !Held(s, e.t, false) && Held(s', e.t, false)
    ensures e.RUnlock? ==> s'.readers == s.readers - {e.t} && Held(s, e.t, false) && !Held(s', e.t, false)
  {
  }

  lemma WriteLockEffect(s: State, e: Event, s': State)
    requires (e.Lock? || e.Unlock?) && e.t in s.threads && ThreadStep(s, e, s', s.threads[e.t])
    ensures s'.readers == s.readers && !Held(s, e.t, false) && !Held(s', e.t, false)
    ensures e.Lock? ==> s.writer == None && s.readers == {} && s'.writer == Some(e.t) && !Held(s, e.t, true) && Held(s', e.t, true)
    ensures e.Unlock? ==> s'.writer == None && Held(s, e.t, true) && !Held(s', e.t, true)
  {
  }

  lemma NoLockEffect(s: State, e: Event, s': State)
    requires !e.Begin? && !ByController(e) && !e.RLock? && !e.RUnlock? && !e.Lock? && !e.Unlock?
    requires e.t in s.threads && ThreadStep(s, e, s', s.threads[e.t])
    ensures s'.readers == s.readers && s'.writer == s.writer
    ensures Held(s, e.t, false) == Held(s', e.t, false) && Held(s, e.t, true) == Held(s', e.t, true)
  {
    if e.Look? {
      LookHolds(s, e, s');
    } else {
      assert s.threads[e.t].pc.HoldsWrite() && s'.threads[e.t].pc.HoldsWrite();
    }
  }

  lemma LookHolds(s: State, e: Event, s': State)
    requires e.Look? && e.t in s.threads && ThreadStep(s, e, s', s.threads[e.t])
    ensures s'.readers == s.readers && s'.writer == s.writer
    ensures Held(s, e.t, false) == Held(s', e.t, false) && Held(s, e.t, true) == Held(s', e.t, true)
  {
  }

  lemma LockInvStep(s: State, e: Event, s': State)
    requires Inv(s) && Step(s, e, s')
    ensures LockInv(s')
  {
    hide ThreadOk, ControllerOk, MapOk, Step;
    StepGrows(s, e, s');
    if !ByController(e) {
      LockEffect(s, e, s');
      hide LockInv, Held, Grows;
      LockInvMove(s, s', e.t);
    }
  }

  lemma LockInvMove(s: State, s': State, t: Tid)
    requires LockInv(s)
    requires t in s'.threads && s'.threads == s.threads[t := s'.threads[t]]
    requires Held(s', t, false) && !Held(s, t, false) ==> s.writer == None && s'.readers == s.readers + {t}
    requires Held(s, t, false) && !Held(s', t, false) ==> s'.readers == s.readers - {t}
    requires Held(s, t, false) == Held(s', t, false) ==> s'.readers == s.readers
    requires Held(s', t, true) && !Held(s, t, true) ==> s.writer == None && s.readers == {} && s'.writer == Some(t)
    requires Held(s, t, true) && !Held(s', t, true) ==> s'.writer == None
    requires Held(s, t, true) == Held(s', t, true) ==> s'.writer == s.writer
    ensures LockInv(s')
  {
  }

  lemma LookOk(s: State, e: Event, s': State)
    requires Inv(s) && Step(s, e, s') && e.Look?
    ensures e.t in s'.threads && ThreadOk(s', s'.threads[e.t])
  {
    ActorOk(s, e, s');
    var th := s.threads[e.t];
    if th.op.key in s.controllers {
      assert ControllerOk(s, s.controllers[th.op.key]);
    }
    hide Inv, Step;
  }

  lemma RUnlockOk(s: State, e: Event, s': State, th: Thread)
    requires e.RUnlock? && e.t in s.threads && th == s.threads[e.t] && ThreadOk(s, th) && ThreadStep(s, e, s', th)
    ensures e.t in s'.threads && ThreadOk(s', s'.threads[e.t])
  {
  }

  lemma SucceedOk(s: State, e: Event, s': State, th: Thread)
    requires e.Succeed? && e.t in s.threads && th == s.threads[e.t] && ThreadOk(s, th) && ThreadStep(s, e, s', th)
    ensures e.t in s'.threads && ThreadOk(s', s'.threads[e.t])
  {
  }

  lemma FailOk(s: State, e: Event, s': State, th: Thread)
    requires e.Fail? && e.t in s.threads && th == s.threads[e.t] && ThreadOk(s, th) && ThreadStep(s, e, s', th)
    ensures e.t in s'.threads && ThreadOk(s', s'.threads[e.t])
  {
  }

  lemma LockStepOk(s: State, e: Event, s': State, th: Thread)
    requires (e.RLock? || e.Lock? || e.Unlock?) && e.t in s.threads && th == s.threads[e.t] && ThreadOk(s, th) && ThreadStep(s, e, s', th)
    ensures e.t in s'.threads && ThreadOk(s', s'.threads[e.t])
  {
  }

  lemma ReplaceOk(s: State, e: Event, s': State, th: Thread)
    requires (e.Stop? || e.AwaitDone? || e.Delete?) && e.t in s.threads && th == s.threads[e.t] && ThreadOk(s, th) && ThreadStep(s, e, s', th)
    ensures e.t in s'.threads && ThreadOk(s', s'.threads[e.t])
  {
  }

  lemma CreateOk(s: State, e: Event, s': State, th: Thread)
    requires (e.NewContext? || e.Go? || e.Register?) && e.t in s.threads && th == s.threads[e.t] && ThreadOk(s, th) && ThreadStep(s, e, s', th)
    ensures e.t in s'.threads && ThreadOk(s', s'.threads[e.t])
  {
    if e.Go? { assert s.ctls[e.c].phase.Idle?; }
  }

  lemma UnderLocksOk(s: State, e: Event, s': State, th: Thread)
    requires !e.Begin? && !ByController(e) && e.t in s.threads && th == s.threads[e.t]
    requires ThreadOk(s, th) && ThreadStep(s, e, s', th)
    requires e.RUnlock? || e.RLock? || e.Lock? || e.Unlock? || e.Fail?
    ensures e.t in s'.threads && ThreadOk(s', s'.threads[e.t])
  {
    hide ThreadOk, ThreadStep;
    if e.RUnlock? { RUnlockOk(s, e, s', th); } else if e.Fail? { FailOk(s, e, s', th); } else { LockStepOk(s, e, s', th); }
  }

  lemma OnTheWayOk(s: State, e: Event, s': State, th: Thread)
    requires !e.Begin? && !ByController(e) && e.t in s.threads && th == s.threads[e.t]
    requires ThreadOk(s, th) && ThreadStep(s, e, s', th)
    requires !(e.RUnlock? || e.RLock? || e.Lock? || e.Unlock? || e.Fail? || e.Look?)
    ensures e.t in s'.threads && ThreadOk(s', s'.threads[e.t])
  {
    hide ThreadOk, ThreadStep;
    if e.Succeed? { SucceedOk(s, e, s', th); }
    else if e.Stop? || e.AwaitDone? || e.Delete? { ReplaceOk(s, e, s', th); }
    else { CreateOk(s, e, s', th); }
  }

  lemma OwnThreadOk(s: State, e: Event, s': State)
    requires Inv(s) && Step(s, e, s') && !ByController(e)
    ensures e.t in s'.threads && ThreadOk(s', s'.threads[e.t])
  {
    if !e.Begin? {
      ActorOk(s, e, s');
      hide Inv, Step, ThreadOk, ThreadStep;
      if e.Look? {
        LookOk(s, e, s');
      } else if e.RUnlock? || e.RLock? || e.Lock? || e.Unlock? || e.Fail? {
        UnderLocksOk(s, e, s', s.threads[e.t]);
      } else {
        OnTheWayOk(s, e, s', s.threads[e.t]);
      }
    }
  }

  lemma OthersThreadOk(s: State, e: Event, s': State, u: Tid)
    requires Inv(s) && Step(s, e, s') && (ByController(e) || u != e.t) && u in s.threads
    ensures u in s'.threads && ThreadOk(s', s'.threads[u])
  {
    StepGrows(s, e, s');
    var th := s.threads[u];
    assert s'.threads[u] == th && ThreadOk(s, th);
    if th.pc.HoldsWrite() {
      assert s.writer == Some(u) && (e.Begin? || ByController(e) || !s.threads[e.t].pc.HoldsWrite());
    }
    hide Inv, Step, LockInv, MapOk;
    ThreadOkKept(s, s', th, ByController(e));
  }

  /** A place survives if controllers only grow and, for a lock holder, neither the map nor unlaunched controllers change. */
  lemma ThreadOkKept(s: State, s': State, th: Thread, byController: bool)
    requires ThreadOk(s, th) && Grows(s, s')
    requires th.pc.HoldsWrite() ==>
               && s'.controllers == s.controllers
               && (!byController ==> s'.ctls == s.ctls)
               && (byController ==> forall c :: 0 <= c < |s.ctls| ==>
                     s'.ctls[c].stopped == s.ctls[c].stopped && (s.ctls[c].phase.Idle? ==> s'.ctls[c] == s.ctls[c]))
    ensures ThreadOk(s', th)
  {
  }

  lemma MapOkStep(s: State, e: Event, s': State)
    requires Inv(s) && Step(s, e, s')
    ensures MapOk(s')
  {
    StepGrows(s, e, s');
    if !e.Begin? && !ByController(e) {
      ActorOk(s, e, s');
      hide Inv, Step, LockInv;
    }
  }

  /** Who else can matter to a controller: only the write lock holder, at a few places. */
  lemma WriterKept(s: State, e: Event, s': State)
    requires Inv(s) && Step(s, e, s')
    requires ByController(e) || e.Begin? || !s.threads[e.t].pc.HoldsWrite()
    ensures forall pc: Pc :: pc.HoldsWrite() && WriterAt(s, pc) ==> WriterAt(s', pc)
  {
    StepGrows(s, e, s');
    if !ByController(e) {
      LockEffect(s, e, s');
    }
  }

  lemma ControllerOkStep(s: State, e: Event, s': State, c: Cid)
    requires Inv(s) && Step(s, e, s') && c < |s'.ctls|
    ensures ControllerOk(s', c)
  {
    StepGrows(s, e, s');
    if c < |s.ctls| {
      assert ControllerOk(s, c);
    }
    if ByController(e) || e.Begin? || !s.threads[e.t].pc.HoldsWrite() {
      WriterKept(s, e, s');
      assert WriterAt(s, Store(c)) ==> WriterAt(s', Store(c));
      assert WriterAt(s, WaitOld(c)) ==> WriterAt(s', WaitOld(c));
      assert WriterAt(s, DeleteOld(c)) ==> WriterAt(s', DeleteOld(c));
    } else {
      LockEffect(s, e, s');
      WriterStepOk(s, e, s', c);
    }
  }

  /** What a step of the lock holder starts from. */
  ghost predicate WriterStep(s: State, e: Event, s': State, c: Cid) {
    && !ByController(e) && !e.Begin? && e.t in s.threads && s.writer == Some(e.t) && s.threads[e.t].pc.HoldsWrite()
    && ThreadOk(s, s.threads[e.t]) && ThreadStep(s, e, s', s.threads[e.t]) && MapOk(s)
    && (c < |s.ctls| ==> ControllerOk(s, c))
  }

  /** Steps of the lock holder that leave the map and this controller alone. */
  lemma WriterStepElsewhere(s: State, e: Event, s': State, c: Cid)
    requires WriterStep(s, e, s', c) && c < |s.ctls|
    requires e.Unlock? || e.Look? || e.AwaitDone? || e.Succeed? || e.NewContext?
    ensures c < |s'.ctls| && ControllerOk(s', c)
  {
    assert s'.controllers == s.controllers && c < |s'.ctls| && s'.ctls[c] == s.ctls[c];
  }

  lemma NewContextKeeps(s: State, e: Event, s': State, c: Cid)
    requires WriterStep(s, e, s', c) && e.NewContext? && c == |s.ctls|
    ensures c < |s'.ctls| && ControllerOk(s', c)
  {
  }

  lemma StopKeeps(s: State, e: Event, s': State, c: Cid)
    requires WriterStep(s, e, s', c) && e.Stop? && c < |s'.ctls|
    ensures ControllerOk(s', c)
  {
  }

  lemma DeleteKeeps(s: State, e: Event, s': State, c: Cid)
    requires WriterStep(s, e, s', c) && e.Delete? && c < |s'.ctls|
    ensures ControllerOk(s', c)
  {
  }

  lemma FailKeeps(s: State, e: Event, s': State, c: Cid)
    requires WriterStep(s, e, s', c) && e.Fail? && c < |s'.ctls|
    ensures ControllerOk(s', c)
  {
    hide ControllerOk, ThreadStep, ThreadOk;
    var pc := s.threads[e.t].pc;
    if pc.NewController? || pc.BuildCache? { CancelKeeps(s, e, s', c); } else { GivingUpKeeps(s, e, s', c); }
  }

  lemma CancelKeeps(s: State, e: Event, s': State, c: Cid)
    requires WriterStep(s, e, s', c) && e.Fail? && c < |s'.ctls| && (s.threads[e.t].pc.NewController? || s.threads[e.t].pc.BuildCache?)
    ensures ControllerOk(s', c)
  {
    assert c != s.threads[e.t].pc.c ==> s'.ctls[c] == s.ctls[c];
  }

  lemma GivingUpKeeps(s: State, e: Event, s': State, c: Cid)
    requires WriterStep(s, e, s', c) && e.Fail? && c < |s'.ctls| && !s.threads[e.t].pc.NewController? && !s.threads[e.t].pc.BuildCache?
    ensures ControllerOk(s', c)
  {
    assert s'.ctls == s.ctls && s'.controllers == s.controllers;
  }

  lemma GoKeeps(s: State, e: Event, s': State, c: Cid)
    requires WriterStep(s, e, s', c) && e.Go? && c < |s'.ctls|
    ensures ControllerOk(s', c)
  {
  }

  lemma RegisterKeeps(s: State, e: Event, s': State, c: Cid)
    requires WriterStep(s, e, s', c) && e.Register? && c < |s'.ctls|
    ensures ControllerOk(s', c)
  {
  }

  lemma WriterStepOk(s: State, e: Event, s': State, c: Cid)
    requires Inv(s) && Step(s, e, s') && c < |s'.ctls| && (c < |s.ctls| ==> ControllerOk(s, c))
    requires !ByController(e) && !e.Begin? && s.threads[e.t].pc.HoldsWrite()
    ensures ControllerOk(s', c)
  {
    ActorOk(s, e, s');
    assert MapOk(s) && WriterStep(s, e, s', c);
    hide Inv, Step, WriterStep, ControllerOk;
    if e.Unlock? || e.Look? || e.AwaitDone? || e.Succeed? || e.NewContext? {
      WriterMoves(s, e, s', c);
    } else {
      WriterChanges(s, e, s', c);
    }
  }

  lemma WriterMoves(s: State, e: Event, s': State, c: Cid)
    requires WriterStep(s, e, s', c) && c < |s'.ctls|
    requires e.Unlock? || e.Look? || e.AwaitDone? || e.Succeed? || e.NewContext?
    ensures ControllerOk(s', c)
  {
    assert c < |s.ctls| || (e.NewContext? && c == |s.ctls|);
    hide WriterStep, ControllerOk;
    if c < |s.ctls| { WriterStepElsewhere(s, e, s', c); } else { NewContextKeeps(s, e, s', c); }
  }

  lemma WriterChanges(s: State, e: Event, s': State, c: Cid)
    requires WriterStep(s, e, s', c) && c < |s'.ctls|
    requires !(e.Unlock? || e.Look? || e.AwaitDone? || e.Succeed? || e.NewContext?)
    ensures ControllerOk(s', c)
  {
    assert e.Stop? || e.Delete? || e.Fail? || e.Go? || e.Register?;
    hide WriterStep, ControllerOk;
    if e.Stop? { StopKeeps(s, e, s', c); }
    else if e.Delete? { DeleteKeeps(s, e, s', c); }
    else if e.Fail? { FailKeeps(s, e, s', c); }
    else if e.Go? { GoKeeps(s, e, s', c); }
    else { RegisterKeeps(s, e, s', c); }
  }

  lemma OthersWereThere(s: State, e: Event, s': State, u: Tid)
    requires Step(s, e, s') && u in s'.threads && (ByController(e) || u != e.t)
    ensures u in s.threads
  {
    hide AfterLook;
  }

  lemma InvStep(s: State, e: Event, s': State)
    requires Inv(s) && Step(s, e, s')
    ensures Inv(s')
  {
    hide Step, ThreadOk, ControllerOk, LockInv, MapOk, Grows;
    LockInvStep(s, e, s');
    MapOkStep(s, e, s');
    StepGrows(s, e, s');
    forall u | u in s'.threads
      ensures ThreadOk(s', s'.threads[u])
    {
      if !ByController(e) && u == e.t {
        OwnThreadOk(s, e, s');
      } else {
        OthersWereThere(s, e, s', u);
        OthersThreadOk(s, e, s', u);
      }
    }
    forall c | 0 <= c < |s'.ctls|
      ensures ControllerOk(s', c)
    {
      ControllerOkStep(s, e, s', c);
    }
  }

  lemma {:induction false} InvAlways(r: Run, n: nat)
    requires r.Valid() && n < |r.states|
    ensures Inv(r.states[n])
  {
    if n > 0 {
      hide Step, Inv;
      InvAlways(r, n - 1);
      InvStep(r.states[n - 1], r.events[n - 1], r.states[n]);
    }
  }

  // ---- what holds in every reachable state ----

  predicate LiveTwins(s: State, c: Cid, d: Cid)
    requires c < |s.ctls| && d < |s.ctls|
  {
    s.ctls[d].Started() && s.ctls[d].key == s.ctls[c].key && !s.ctls[c].stopped && !s.ctls[d].stopped
  }

  /**
   Whenever the controllers lock is free, a started controller is the map's entry for its key exactly
   if stop has not been called on it. So per key at most one started controller is not stopped.
   */
  lemma StartedMeansRegisteredOrStopped(r: Run, n: nat, c: Cid)
    requires r.Valid() && n < |r.states| && c < |r.states[n].ctls| && r.states[n].ctls[c].Started()
    ensures r.states[n].writer == None ==> (InMap(r.states[n], c) <==> !r.states[n].ctls[c].stopped)
    ensures forall d :: 0 <= d < |r.states[n].ctls| && LiveTwins(r.states[n], c, d) ==> c == d
  {
    InvAlways(r, n);
    var s := r.states[n];
    assert ControllerOk(s, c);
    forall d | 0 <= d < |s.ctls| && LiveTwins(s, c, d)
      ensures c == d
    {
      assert ControllerOk(s, d);
      if s.writer.Some? {
        assert ThreadOk(s, s.threads[s.writer.value]);
      }
    }
  }

  /** StartErr is non-nil exactly once done is closed. */
  lemma StartErrIffDone(r: Run, n: nat, c: Cid)
    requires r.Valid() && n < |r.states| && c < |r.states[n].ctls|
    ensures r.states[n].ctls[c].StartErr().Some? <==> r.states[n].ctls[c].Done()
  {
    InvAlways(r, n);
    assert ControllerOk(r.states[n], c);
  }

  /** The error that is published for what Start returned. */
  predicate Publishes(e: Event, c: Cid, startErr: Option<StartError>) {
    e.CtlReturn? && e.c == c && startErr == Some(if e.err.Some? then e.err.value else ErrStopped)
  }

  /** Where there are controllers there was a step. */
  lemma ControllersComeByStep(r: Run, n: nat, c: Cid)
    requires r.Valid() && n < |r.states| && c < |r.states[n].ctls|
    ensures n > 0 && |r.states| == |r.events| + 1 && Step(r.states[n - 1], r.events[n - 1], r.states[n])
  {
    assert n > 0;
    hide Step;
  }

  /** StartErr is what the controller's own Start returned, or ErrStopped if that was nil. */
  lemma {:induction false} StartErrIsWhatStartReturned(r: Run, n: nat, c: Cid) returns (i: nat)
    requires r.Valid() && n < |r.states| && c < |r.states[n].ctls|
    requires r.states[n].ctls[c].phase.Published? || r.states[n].ctls[c].phase.Closed?
    ensures i < n && Publishes(r.events[i], c, r.states[n].ctls[c].startErr)
  {
    ControllersComeByStep(r, n, c);
    hide Step, Inv, Run.Valid;
    var s, e, s' := r.states[n - 1], r.events[n - 1], r.states[n];
    InvAlways(r, n - 1);
    PhaseMoves(s, e, s', c);
    if s.ctls[c].phase.Returned? {
      i := ReturnedEarlier(r, n - 1, c);
    } else {
      i := StartErrIsWhatStartReturned(r, n - 1, c);
    }
  }

  /** Where a controller's progress or its error may come from. */
  predicate Proceeds(s: State, e: Event, s': State, c: Cid)
    requires c < |s.ctls| && c < |s'.ctls|
  {
    var ctl, ctl' := s.ctls[c], s'.ctls[c];
    match ctl'.phase
    case Idle => true
    case Running => true
    case Returned(err) => e == CtlReturn(c, err) || ctl == ctl' || ctl == ctl'.(stopped := ctl.stopped)
    case Published =>
      || ctl == ctl'.(stopped := ctl.stopped)
      || (ctl.phase.Returned? && ctl'.startErr == Some(if ctl.phase.err.Some? then ctl.phase.err.value else ErrStopped))
    case Closed => ctl'.startErr == ctl.startErr && (ctl.phase.Published? || ctl.phase.Closed?)
  }

  lemma PhaseMoves(s: State, e: Event, s': State, c: Cid)
    requires Inv(s) && Step(s, e, s') && c < |s'.ctls| && s'.ctls[c].phase !in {Idle, Running}
    ensures c < |s.ctls| && Proceeds(s, e, s', c)
  {
    if ByController(e) {
      hide Inv;
    } else if !e.Begin? {
      ActorOk(s, e, s');
      hide Inv, Step, ThreadOk, ThreadStep;
      ThreadsDoNotProceed(s, e, s', c);
    }
  }

  /** Threads stop controllers and launch them, and change nothing else about them. */
  lemma ThreadsDoNotProceed(s: State, e: Event, s': State, c: Cid)
    requires !e.Begin? && !ByController(e) && e.t in s.threads && ThreadStep(s, e, s', s.threads[e.t])
    requires c < |s'.ctls| && s'.ctls[c].phase !in {Idle, Running}
    ensures c < |s.ctls| && s.ctls[c] == s'.ctls[c].(stopped := s.ctls[c].stopped)
  {
    hide AfterLook;
  }

  lemma {:induction false} ReturnedEarlier(r: Run, n: nat, c: Cid) returns (i: nat)
    requires r.Valid() && n < |r.states| && c < |r.states[n].ctls| && r.states[n].ctls[c].phase.Returned?
    ensures i < n && r.events[i] == CtlReturn(c, r.states[n].ctls[c].phase.err)
  {
    ControllersComeByStep(r, n, c);
    hide Step, Inv, Run.Valid;
    var s, e, s' := r.states[n - 1], r.events[n - 1], r.states[n];
    InvAlways(r, n - 1);
    PhaseMoves(s, e, s', c);
    if e == CtlReturn(c, s'.ctls[c].phase.err) {
      i := n - 1;
    } else {
      i := ReturnedEarlier(r, n - 1, c);
    }
  }

  // ---- concurrent ensures agree ----

  /** Step i hands controller c to an Ensure(k, h): a hit under either lock, or the registration of a new one. */
  predicate Obtains(r: Run, i: nat, k: Key, h: Hash, c: Cid)
    requires i < |r.events| && |r.states| == |r.events| + 1
  {
    var e := r.events[i];
    && (e.Look? || e.Register?)
    && e.t in r.states[i + 1].threads
    && r.states[i + 1].threads[e.t].op == Ensure(k, h)
    && (r.states[i + 1].threads[e.t].pc == ReleaseHit(c) || r.states[i + 1].threads[e.t].pc == Release(Some(c)))
  }

  /** The step stops a controller of key k, for a removal or for an ensure with another hash. */
  predicate Displaces(s: State, e: Event, k: Key, h: Hash) {
    && e.Stop? && e.t in s.threads && s.threads[e.t].op.key == k
    && (s.threads[e.t].op.Ensure? ==> s.threads[e.t].op.hash != h)
  }

  lemma StopIsDue(s: State, e: Event, s': State)
    requires Inv(s) && Step(s, e, s') && e.Stop?
    ensures e.t in s.threads && Unwanted(s, s.threads[e.t].op, e.c) && s.ctls[e.c].key == s.threads[e.t].op.key
  {
    ActorOk(s, e, s');
  }

  /**
   Nothing is stopped without need: whoever stops a controller removes its key or ensures another hash for
   it, and the controller is the map's entry at that moment. A new one is only made for a key without entry.
   */
  lemma StopsAreDue(r: Run, i: nat)
    requires r.Valid() && i < |r.events|
    ensures r.events[i].Stop? ==>
              && r.events[i].t in r.states[i].threads && r.events[i].c < |r.states[i].ctls| && InMap(r.states[i], r.events[i].c)
              && var op := r.states[i].threads[r.events[i].t].op;
              && op.key == r.states[i].ctls[r.events[i].c].key
              && (op == Remove(op.key) || op.hash != r.states[i].ctls[r.events[i].c].hash)
    ensures r.events[i].NewContext? ==>
              r.events[i].t in r.states[i].threads && r.states[i].threads[r.events[i].t].op.key !in r.states[i].controllers
  {
    InvAlways(r, i);
    assert Step(r.states[i], r.events[i], r.states[i + 1]);
    if r.events[i].Stop? {
      StopIsDue(r.states[i], r.events[i], r.states[i + 1]);
    } else if r.events[i].NewContext? {
      ActorOk(r.states[i], r.events[i], r.states[i + 1]);
    }
    hide Inv, Step;
  }

  /** A look of an ensure that finds a controller with its own hash obtains that one, under either lock. */
  lemma LooksFindTheirOwn(r: Run, i: nat)
    requires r.Valid() && i < |r.events| && r.events[i].Look? && r.events[i].t in r.states[i].threads
    ensures var op := r.states[i].threads[r.events[i].t].op;
            op.Ensure? && op.key in r.states[i].controllers && r.states[i].controllers[op.key] < |r.states[i].ctls| &&
            r.states[i].ctls[r.states[i].controllers[op.key]].hash == op.hash ==>
              Obtains(r, i, op.key, op.hash, r.states[i].controllers[op.key])
  {
    assert Step(r.states[i], r.events[i], r.states[i + 1]);
  }

  predicate Current(s: State, k: Key, h: Hash, c: Cid) {
    && k in s.controllers && s.controllers[k] == c
    && c < |s.ctls| && s.ctls[c].hash == h && !s.ctls[c].stopped
  }

  lemma ObtainedIsCurrent(r: Run, i: nat, k: Key, h: Hash, c: Cid)
    requires r.Valid() && i < |r.events| && Obtains(r, i, k, h, c)
    ensures Current(r.states[i + 1], k, h, c)
    ensures r.events[i].Register? ==> k !in r.states[i].controllers
    ensures r.events[i].Look? ==> Current(r.states[i], k, h, c)
  {
    var s, e := r.states[i], r.events[i];
    InvAlways(r, i);
    assert Step(s, e, r.states[i + 1]);
    var th := s.threads[e.t];
    assert ThreadOk(s, th);
    assert ThreadStep(s, e, r.states[i + 1], th);
    if e.Look? {
      assert ControllerOk(s, c);
      assert e.t in s.readers || s.writer == Some(e.t);
    }
  }

  lemma CurrentKept(s: State, e: Event, s': State, k: Key, h: Hash, c: Cid)
    requires Inv(s) && Step(s, e, s') && Current(s, k, h, c) && !Displaces(s, e, k, h)
    ensures Current(s', k, h, c)
  {
    StepGrows(s, e, s');
    assert ControllerOk(s, c);
    if ByController(e) {
      ControllerEffect(s, e, s');
      hide Inv, Step;
    } else if !e.Begin? {
      if e.Stop? { StopIsDue(s, e, s'); }
      ActorOk(s, e, s');
      hide Inv, Step, LockInv, MapOk;
    }
  }

  /**
   Two ensures for the same key and hash get the same controller, however they interleave with each
   other and with all else, unless in between it was stopped for a removal or an ensure with another hash.
   */
  lemma {:induction false} EnsuresAgree(r: Run, i: nat, j: nat, k: Key, h: Hash, c: Cid, d: Cid)
    requires r.Valid() && i <= j < |r.events|
    requires Obtains(r, i, k, h, c) && Obtains(r, j, k, h, d)
    requires forall m :: i < m < j ==> !Displaces(r.states[m], r.events[m], k, h)
    ensures c == d
  {
    ObtainedIsCurrent(r, i, k, h, c);
    ObtainedIsCurrent(r, j, k, h, d);
    if i < j { CurrentUntil(r, i + 1, j, k, h, c); }
  }

  lemma {:induction false} CurrentUntil(r: Run, i: nat, j: nat, k: Key, h: Hash, c: Cid)
    requires r.Valid() && i <= j < |r.events| && Current(r.states[i], k, h, c)
    requires forall m :: i <= m < j ==> !Displaces(r.states[m], r.events[m], k, h)
    ensures Current(r.states[j], k, h, c)
  {
    hide Step, Inv, Current;
    if i < j {
      CurrentUntil(r, i, j - 1, k, h, c);
      InvAlways(r, j - 1);
      assert Step(r.states[j - 1], r.events[j - 1], r.states[j]);
      CurrentKept(r.states[j - 1], r.events[j - 1], r.states[j], k, h, c);
    }
  }

  /** The call has controller c in its hands, on its way out. */
  predicate Gets(s: State, t: Tid, c: Cid) {
    t in s.threads && s.threads[t].pc in {Finished(Some(c)), ReleaseHit(c), Release(Some(c))}
  }

  function Begins(t: Tid): Event -> bool { (e: Event) => e.Begin? && e.t == t }

  /** A step since this call began handed controller c to it. */
  ghost predicate ObtainedBefore(r: Run, n: nat, t: Tid, op: Op, c: Cid)
    requires n <= |r.events| && |r.states| == |r.events| + 1
  {
    op.Ensure? && exists i: nat :: Last(r.events, n, Begins(t)) < i < n && HandedAt(r, i, t, op, c)
  }

  predicate HandedAt(r: Run, i: nat, t: Tid, op: Op, c: Cid)
    requires i < |r.events| && |r.states| == |r.events| + 1
  {
    op.Ensure? && r.events[i] in {Look(t), Register(t, c)} && Obtains(r, i, op.key, op.hash, c)
  }

  /** A call gets its controller by a look or a registration of its own, or had it before. */
  lemma GetsByStep(s: State, e: Event, s': State, t: Tid, c: Cid)
    requires Inv(s) && Step(s, e, s') && Gets(s', t, c)
    ensures t in s.threads && s.threads[t].op == s'.threads[t].op && !(e.Begin? && e.t == t)
    ensures !Gets(s, t, c) ==>
              && e in {Look(t), Register(t, c)} && s'.threads[t].op.Ensure?
              && s'.threads[t].pc in {ReleaseHit(c), Release(Some(c))}
  {
    StepGrows(s, e, s');
    if !ByController(e) && !e.Begin? && e.t == t {
      ActorOk(s, e, s');
      hide Inv, Step, Grows;
      OwnGets(s, e, s', c);
    }
  }

  lemma OwnGets(s: State, e: Event, s': State, c: Cid)
    requires !e.Begin? && !ByController(e) && e.t in s.threads && ThreadStep(s, e, s', s.threads[e.t]) && ThreadOk(s, s.threads[e.t])
    requires Gets(s', e.t, c)
    ensures s.threads[e.t].op == s'.threads[e.t].op
    ensures !Gets(s, e.t, c) ==>
              && e in {Look(e.t), Register(e.t, c)} && s'.threads[e.t].op.Ensure?
              && s'.threads[e.t].pc in {ReleaseHit(c), Release(Some(c))}
  {
    hide Unlaunched;
    if e.Look? {
      hide ThreadOk, Yields;
    } else if e.RUnlock? || e.Unlock? {
      hide ThreadOk, AfterLook;
    } else {
      hide AfterLook;
    }
  }

  /** Where there are goroutines there was a step. */
  lemma PreviousStep(r: Run, n: nat, t: Tid)
    requires r.Valid() && n <= |r.events| && t in r.states[n].threads
    ensures n > 0 && |r.states| == |r.events| + 1 && Step(r.states[n - 1], r.events[n - 1], r.states[n])
  {
    assert n > 0;
    hide Step;
  }

  lemma ObtainedStays(r: Run, n: nat, t: Tid, op: Op, c: Cid)
    requires |r.states| == |r.events| + 1 && n < |r.events| && !(r.events[n].Begin? && r.events[n].t == t)
    ensures ObtainedBefore(r, n, t, op, c) || HandedAt(r, n, t, op, c) ==> ObtainedBefore(r, n + 1, t, op, c)
  {
    LastStep(r.events, n, Begins(t));
    assert HandedAt(r, n, t, op, c) ==> op.Ensure?;
    hide Last, HandedAt, Begins;
    if ObtainedBefore(r, n, t, op, c) {
      var i: nat :| Last(r.events, n, Begins(t)) < i < n && HandedAt(r, i, t, op, c);
      assert Last(r.events, n + 1, Begins(t)) < i < n + 1;
    }
  }

  lemma HandedNow(r: Run, n: nat, t: Tid, c: Cid)
    requires |r.states| == |r.events| + 1 && n < |r.events| && t in r.states[n + 1].threads && r.states[n + 1].threads[t].op.Ensure?
    requires r.events[n] in {Look(t), Register(t, c)} && r.states[n + 1].threads[t].pc in {ReleaseHit(c), Release(Some(c))}
    ensures HandedAt(r, n, t, r.states[n + 1].threads[t].op, c)
  {
  }

  /** What an ensure returns is what this very call obtained under a lock, for its own key and hash. */
  lemma {:induction false} ReturnedWasObtained(r: Run, n: nat, t: Tid, c: Cid)
    requires r.Valid() && n <= |r.events| && t in r.states[n].threads && Gets(r.states[n], t, c)
    ensures ObtainedBefore(r, n, t, r.states[n].threads[t].op, c)
  {
    hide *;
    PreviousStep(r, n, t);
    InvAlways(r, n - 1);
    GetsByStep(r.states[n - 1], r.events[n - 1], r.states[n], t, c);
    if Gets(r.states[n - 1], t, c) {
      ReturnedWasObtained(r, n - 1, t, c);
    } else {
      HandedNow(r, n - 1, t, c);
    }
    ObtainedStays(r, n - 1, t, r.states[n].threads[t].op, c);
  }

  // ---- how a call ends ----

  function Fails(t: Tid): Event -> bool { (e: Event) => e == Fail(t) }

  /** An ensure on its way out without a controller. */
  predicate Failing(th: Thread) { th.op.Ensure? && th.pc in {Release(None), Finished(None)} }

  /** A removal on its way out. */
  predicate Leaving(th: Thread) { th.op.Remove? && (th.pc.ReleaseAbsent? || th.pc.Release? || th.pc.Finished?) }

  lemma OwnEnd(s: State, e: Event, s': State)
    requires Inv(s) && Step(s, e, s') && !e.Begin? && !ByController(e)
    ensures e.t in s.threads && e.t in s'.threads && s'.threads[e.t].op == s.threads[e.t].op
    ensures Failing(s'.threads[e.t]) <==> Failing(s.threads[e.t]) || e == Fail(e.t)
    ensures Leaving(s'.threads[e.t]) && !Leaving(s.threads[e.t]) ==>
              s.threads[e.t].op.key !in s.controllers || s.threads[e.t].op.key !in s'.controllers
  {
    ActorOk(s, e, s');
    hide Inv, Step;
    if e.Look? {
      LookEnd(s, e, s');
    } else {
      StepEnd(s, e, s');
    }
  }

  lemma LookEnd(s: State, e: Event, s': State)
    requires e.Look? && e.t in s.threads && ThreadStep(s, e, s', s.threads[e.t])
    ensures e.t in s'.threads && s'.threads[e.t].op == s.threads[e.t].op
    ensures !Failing(s.threads[e.t]) && !Failing(s'.threads[e.t])
    ensures Leaving(s'.threads[e.t]) ==> s.threads[e.t].op.key !in s.controllers
  {
  }

  lemma StepEnd(s: State, e: Event, s': State)
    requires !e.Begin? && !ByController(e) && !e.Look?
    requires e.t in s.threads && ThreadOk(s, s.threads[e.t]) && ThreadStep(s, e, s', s.threads[e.t])
    ensures e.t in s'.threads && s'.threads[e.t].op == s.threads[e.t].op
    ensures Failing(s'.threads[e.t]) <==> Failing(s.threads[e.t]) || e == Fail(e.t)
    ensures Leaving(s'.threads[e.t]) && !Leaving(s.threads[e.t]) ==> s.threads[e.t].op.key !in s'.controllers
  {
    hide AfterLook, Unwanted;
  }

  lemma OthersStand(s: State, e: Event, s': State, t: Tid)
    requires Step(s, e, s') && t in s'.threads && (ByController(e) || e.t != t)
    ensures t in s.threads && s'.threads[t] == s.threads[t]
  {
    if !ByController(e) && !e.Begin? {
      ThreadFrame(s, e, s');
      hide Step;
    }
  }

  /** A call of goroutine t begins. */
  predicate Starts(e: Event, t: Tid) { e.Begin? && e.t == t }

  lemma FailsStep(r: Run, n: nat, t: Tid)
    requires n < |r.events|
    ensures Since(r.events, n + 1, Begins(t), Fails(t)) <==>
            !Starts(r.events[n], t) && (Since(r.events, n, Begins(t), Fails(t)) || r.events[n] == Fail(t))
  {
    SinceStep(r.events, n, Begins(t), Fails(t));
    hide Since;
  }

  lemma FailingStep(s: State, e: Event, s': State, t: Tid)
    requires Inv(s) && Step(s, e, s') && t in s'.threads
    ensures !Starts(e, t) ==> t in s.threads && s.threads[t].op == s'.threads[t].op
    ensures Failing(s'.threads[t]) <==> !Starts(e, t) && (Failing(s.threads[t]) || e == Fail(t))
    ensures Leaving(s'.threads[t]) ==>
              && !Starts(e, t)
              && (Leaving(s.threads[t]) || s.threads[t].op.key !in s.controllers || s.threads[t].op.key !in s'.controllers)
  {
    if ByController(e) || e.t != t {
      OthersStand(s, e, s', t);
      hide Inv, Step, Failing, Leaving;
    } else if !e.Begin? {
      OwnEnd(s, e, s');
      hide Inv, Step, Failing, Leaving;
    } else {
      hide Inv;
    }
  }

  lemma {:induction false} FailingMeansFailed(r: Run, n: nat, t: Tid)
    requires r.Valid() && n <= |r.events| && t in r.states[n].threads
    ensures Failing(r.states[n].threads[t]) <==> Since(r.events, n, Begins(t), Fails(t))
  {
    hide *;
    PreviousStep(r, n, t);
    InvAlways(r, n - 1);
    FailingStep(r.states[n - 1], r.events[n - 1], r.states[n], t);
    FailsStep(r, n - 1, t);
    if !Starts(r.events[n - 1], t) { FailingMeansFailed(r, n - 1, t); }
  }

  /** There was a moment since the call began at which the map had no entry for the key. */
  ghost predicate AbsentSince(r: Run, n: nat, t: Tid, k: Key)
    requires n <= |r.events| && |r.states| == |r.events| + 1
  {
    exists j: nat :: Last(r.events, n, Begins(t)) < j <= n && k !in r.states[j].controllers
  }

  lemma AbsentStays(r: Run, n: nat, t: Tid, k: Key)
    requires |r.states| == |r.events| + 1 && n < |r.events| && !Starts(r.events[n], t)
    ensures AbsentSince(r, n, t, k) || k !in r.states[n].controllers || k !in r.states[n + 1].controllers ==> AbsentSince(r, n + 1, t, k)
  {
    LastStep(r.events, n, Begins(t));
    hide Last, Begins;
    if AbsentSince(r, n, t, k) {
      var j: nat :| Last(r.events, n, Begins(t)) < j <= n && k !in r.states[j].controllers;
      assert Last(r.events, n + 1, Begins(t)) < j <= n + 1;
    }
  }

  lemma {:induction false} LeavingFoundNothing(r: Run, n: nat, t: Tid)
    requires r.Valid() && n <= |r.events| && t in r.states[n].threads && Leaving(r.states[n].threads[t])
    ensures AbsentSince(r, n, t, r.states[n].threads[t].op.key)
  {
    hide *;
    PreviousStep(r, n, t);
    InvAlways(r, n - 1);
    FailingStep(r.states[n - 1], r.events[n - 1], r.states[n], t);
    if Leaving(r.states[n - 1].threads[t]) { LeavingFoundNothing(r, n - 1, t); }
    AbsentStays(r, n - 1, t, r.states[n].threads[t].op.key);
  }

  /**
   An ensure returns no controller if and only if one of its own fallible calls failed; a removal never
   returns one, and while it ran there was a moment without an entry for its key.
   */
  lemma CallsEndAsTheyWent(r: Run, n: nat, t: Tid)
    requires r.Valid() && n <= |r.events| && t in r.states[n].threads && r.states[n].threads[t].pc.Finished?
    ensures var th := r.states[n].threads[t];
            && (th.op.Ensure? ==> (th.pc.result == None <==> Since(r.events, n, Begins(t), Fails(t))))
            && (th.op.Remove? ==> th.pc.result == None && AbsentSince(r, n, t, th.op.key))
  {
    var th := r.states[n].threads[t];
    FailingMeansFailed(r, n, t);
    if th.op.Remove? {
      LeavingFoundNothing(r, n, t);
      InvAlways(r, n);
      assert ThreadOk(r.states[n], th);
    }
    hide Inv, Run.Valid, Since, AbsentSince;
  }

  // ---- predecessor and successor ----

  /** The step takes c out of the map on behalf of a removed ManagedResource. */
  predicate Removes(s: State, e: Event, c: Cid) {
    e.Delete? && e.t in s.threads && s.threads[e.t].op.Remove? &&
    s.threads[e.t].op.key in s.controllers && s.controllers[s.threads[e.t].op.key] == c
  }

  predicate RemovedAt(r: Run, j: nat, c: Cid)
    requires j < |r.events| && |r.states| == |r.events| + 1
  {
    Removes(r.states[j], r.events[j], c)
  }

  /** Started, but neither in the map nor about to be. */
  predicate Gone(s: State, c: Cid) {
    c < |s.ctls| && s.ctls[c].Started() && !InMap(s, c) && !WriterAt(s, Store(c))
  }

  lemma {:induction false} GoneMeansDoneOrRemoved(r: Run, n: nat, c: Cid)
    requires r.Valid() && n <= |r.events| && Gone(r.states[n], c)
    ensures r.states[n].ctls[c].Done() || exists j: nat :: j < n && RemovedAt(r, j, c)
  {
    assert n > 0;
    var s, e, s' := r.states[n - 1], r.events[n - 1], r.states[n];
    hide Inv, Step, Init, Removes;
    InvAlways(r, n - 1);
    StepGrows(s, e, s');
    if Gone(s, c) {
      GoneMeansDoneOrRemoved(r, n - 1, c);
    } else {
      GoneByStep(s, e, s', c);
      assert !s'.ctls[c].Done() ==> RemovedAt(r, n - 1, c);
    }
  }

  /** A controller becomes gone only by leaving the map: done, on the way to a successor, or removed. */
  lemma GoneByStep(s: State, e: Event, s': State, c: Cid)
    requires Inv(s) && Step(s, e, s') && Gone(s', c) && !Gone(s, c)
    ensures s'.ctls[c].Done() || Removes(s, e, c)
  {
    if ByController(e) || e.Begin? || !s.threads[e.t].pc.HoldsWrite() {
      NotGoneKept(s, e, s', c);
    } else if c < |s.ctls| && InMap(s, c) {
      StepGrows(s, e, s');
      LeavesMap(s, e, s', c);
      hide Inv, Step;
    } else {
      StoredBeforeGone(s, e, s', c);
    }
  }

  /** A launched controller is stored before its thread gives up the lock, so it never goes without having been in the map. */
  lemma StoredBeforeGone(s: State, e: Event, s': State, c: Cid)
    requires Inv(s) && Step(s, e, s') && !ByController(e) && !e.Begin? && s.threads[e.t].pc.HoldsWrite()
    requires !(c < |s.ctls| && InMap(s, c)) && !Gone(s, c)
    ensures !Gone(s', c)
  {
    StepGrows(s, e, s');
    ActorOk(s, e, s');
    hide Inv, Step, LockInv;
  }

  lemma NotGoneKept(s: State, e: Event, s': State, c: Cid)
    requires Inv(s) && Step(s, e, s') && (ByController(e) || e.Begin? || !s.threads[e.t].pc.HoldsWrite())
    ensures Gone(s', c) ==> Gone(s, c)
  {
    StepGrows(s, e, s');
    WriterKept(s, e, s');
    assert WriterAt(s, Store(c)) ==> WriterAt(s', Store(c));
    if ByController(e) { ControllerEffect(s, e, s'); }
    hide Step, Inv;
  }

  lemma LeavesMap(s: State, e: Event, s': State, c: Cid)
    requires Inv(s) && Step(s, e, s') && c < |s.ctls| && c < |s'.ctls| && s'.ctls[c].key == s.ctls[c].key
    requires InMap(s, c) && !InMap(s', c)
    ensures e.Delete? && e.t in s.threads && s.threads[e.t].op.key == s.ctls[c].key
    ensures s.threads[e.t].op.Ensure? ==> s'.ctls[c].Done()
  {
    if ByController(e) {
      ControllerEffect(s, e, s');
    } else if !e.Begin? {
      ActorOk(s, e, s');
      hide Inv, Step;
    }
  }

  /**
   When a controller is launched, every earlier controller of its key has been stopped, and has
   finished as well unless it went away through the removal of its ManagedResource.
   */
  lemma PredecessorIsStoppedAndDone(r: Run, i: nat, prev: Cid)
    requires r.Valid() && i < |r.events| && r.events[i].Go?
    requires prev < |r.states[i].ctls| && r.states[i].ctls[prev].Started()
    requires r.events[i].c < |r.states[i].ctls| && r.states[i].ctls[prev].key == r.states[i].ctls[r.events[i].c].key
    ensures r.states[i].ctls[prev].stopped
    ensures r.states[i].ctls[prev].Done() || exists j: nat :: j < i && RemovedAt(r, j, prev)
  {
    var s, e := r.states[i], r.events[i];
    InvAlways(r, i);
    assert Step(s, e, r.states[i + 1]);
    assert ThreadOk(s, s.threads[e.t]);
    assert ThreadStep(s, e, r.states[i + 1], s.threads[e.t]);
    assert s.writer == Some(e.t);
    assert ControllerOk(s, prev);
    GoneMeansDoneOrRemoved(r, i, prev);
  }

  lemma Extend(r: Run, e: Event, s': State) returns (r': Run)
    requires r.Valid() && Step(r.states[|r.events|], e, s')
    ensures r'.Valid() && |r'.events| == |r.events| + 1 && r'.states[|r.events|] == r.states[|r.events|]
    ensures r'.states[|r'.events|] == s' && r'.events[|r.events|] == e
  {
    r' := Run(r.states + [s'], r.events + [e]);
    forall i | 0 <= i < |r'.events|
      ensures Step(r'.states[i], r'.events[i], r'.states[i + 1])
    {
      if i < |r.events| {
        assert r'.states[i] == r.states[i] && r'.states[i + 1] == r.states[i + 1] && r'.events[i] == r.events[i];
      }
    }
  }

  predicate Quiet(s: State) { s.writer == None && s.readers == {} }

  /** An undisturbed call whose first look does not settle it, up to its release of the read lock. */
  lemma ReachMiss(r: Run, s: State, t: Tid, op: Op) returns (r': Run)
    requires r.Valid() && s == r.states[|r.events|] && Quiet(s) && t !in s.threads
    requires AfterLook(s, Thread(op, Peek)) == ReleaseMiss
    ensures r'.Valid() && |r'.events| > 0
    ensures r'.states[|r'.events|] == s.(threads := s.threads[t := Thread(op, ReleaseMiss)], readers := {t})
  {
    hide Run.Valid;
    var s1 := s.(threads := s.threads[t := Thread(op, Entry)]);
    r' := Extend(r, Begin(t, op), s1);
    r' := Extend(r', RLock(t), s1.(readers := {t}).Goto(t, Peek));
    assert AfterLook(s1.(readers := {t}).Goto(t, Peek), Thread(op, Peek)) == ReleaseMiss;
    r' := Extend(r', Look(t), s1.(readers := {t}).Goto(t, ReleaseMiss));
  }

  /** The same up to its second look. */
  lemma ReachCheck(r: Run, s: State, t: Tid, op: Op) returns (r': Run)
    requires r.Valid() && s == r.states[|r.events|] && Quiet(s) && t !in s.threads
    requires AfterLook(s, Thread(op, Peek)) == ReleaseMiss
    ensures r'.Valid() && |r'.events| > 0
    ensures r'.states[|r'.events|] == s.(threads := s.threads[t := Thread(op, Check)], writer := Some(t))
  {
    hide Run.Valid, AfterLook;
    r' := ReachMiss(r, s, t, op);
    var s1 := s.(threads := s.threads[t := Thread(op, WantLock)]);
    r' := Extend(r', RUnlock(t), s1);
    r' := Extend(r', Lock(t), s1.(writer := Some(t)).Goto(t, Check));
  }

  /** From the second look to the point before the launch of a new controller. */
  lemma ReachBuilt(r: Run, s: State, t: Tid, k: Key, h: Hash) returns (r': Run)
    requires r.Valid() && s == r.states[|r.events|] && t in s.threads && s.threads[t] == Thread(Ensure(k, h), Check)
    requires k !in s.controllers
    ensures r'.Valid()
    ensures r'.states[|r'.events|] ==
            s.(ctls := s.ctls + [Controller(k, h, false, Idle, None)]).Goto(t, Launch(|s.ctls|))
  {
    var c := |s.ctls|;
    r' := Extend(r, Look(t), s.Goto(t, Configure));
    var s1 := s.(ctls := s.ctls + [Controller(k, h, false, Idle, None)]);
    r' := Extend(r', NewContext(t, c), s1.Goto(t, NewController(c)));
    r' := Extend(r', Succeed(t), s1.Goto(t, BuildCache(c)));
    r' := Extend(r', Succeed(t), s1.Goto(t, WatchChannel(c)));
    r' := Extend(r', Succeed(t), s1.Goto(t, Launch(c)));
  }

  /** From the second look to the launch of a new controller. */
  lemma ReachLaunch(r: Run, s: State, t: Tid, k: Key, h: Hash) returns (r': Run)
    requires r.Valid() && s == r.states[|r.events|] && t in s.threads && s.threads[t] == Thread(Ensure(k, h), Check)
    requires k !in s.controllers
    ensures r'.Valid() && |r'.events| > 0 && r'.events[|r'.events| - 1] == Go(t, |s.ctls|)
    ensures r'.states[|r'.events| - 1].ctls == s.ctls + [Controller(k, h, false, Idle, None)]
    ensures r'.states[|r'.events|] ==
            s.(ctls := s.ctls + [Controller(k, h, false, Running, None)]).Goto(t, Store(|s.ctls|))
  {
    var c := |s.ctls|;
    var built := ReachBuilt(r, s, t, k, h);
    var s1 := built.states[|built.events|];
    assert s1.SetPhase(c, Running).ctls == s.ctls + [Controller(k, h, false, Running, None)];
    r' := Extend(built, Go(t, c), s1.SetPhase(c, Running).Goto(t, Store(c)));
    assert s1.threads[t := Thread(Ensure(k, h), Store(c))] == s.threads[t := Thread(Ensure(k, h), Store(c))];
  }

  /** An undisturbed removal of running controller c: stopped, */
  lemma ReachStopped(r: Run, s: State, t: Tid, k: Key, c: Cid) returns (r': Run)
    requires r.Valid() && s == r.states[|r.events|] && t in s.threads && s.threads[t] == Thread(Remove(k), Check)
    requires k in s.controllers && s.controllers[k] == c && c < |s.ctls|
    ensures r'.Valid() && r'.states[|r'.events|] == s.Cancel(c).Goto(t, DeleteOld(c))
  {
    hide Run.Valid;
    r' := Extend(r, Look(t), s.Goto(t, StopOld(c)));
    r' := Extend(r', Stop(t, c), s.Cancel(c).Goto(t, DeleteOld(c)));
  }

  /** ... and taken out of the map. */
  lemma ReachRemoved(r: Run, s: State, t: Tid, k: Key, c: Cid) returns (r': Run)
    requires r.Valid() && s == r.states[|r.events|] && t in s.threads && s.threads[t] == Thread(Remove(k), Check)
    requires k in s.controllers && s.controllers[k] == c && c < |s.ctls|
    ensures r'.Valid()
    ensures r'.states[|r'.events|] ==
            s.Cancel(c).(controllers := s.controllers - {k}, writer := None).Goto(t, Finished(None))
  {
    hide Run.Valid, AfterLook;
    r' := ReachStopped(r, s, t, k, c);
    r' := Extend(r', Delete(t), s.Cancel(c).(controllers := s.controllers - {k}).Goto(t, Release(None)));
    r' := Extend(r', Unlock(t), s.Cancel(c).(controllers := s.controllers - {k}, writer := None).Goto(t, Finished(None)));
  }

  /**
   After a removal the weaker half is all there is: a ManagedResource that is deleted and created
   again may get its new controller while the old one is still running, though stopped.
   */
  lemma RecreateOverlaps(k: Key, h: Hash) returns (r: Run)
    ensures r.Valid() && |r.events| > 0 && r.events[|r.events| - 1] == Go(2, 1)
    ensures var s := r.states[|r.events| - 1];
            && |s.ctls| == 2 && s.ctls[0].key == s.ctls[1].key == k
            && s.ctls[0].stopped && s.ctls[0].phase.Running?
  {
    r := RunningOnce(k, h);
    hide Step, Init;
    r := ReachCheck(r, r.states[|r.events|], 1, Remove(k));
    r := ReachRemoved(r, r.states[|r.events|], 1, k, 0);
    var s := r.states[|r.events|];
    assert k !in s.controllers && s.ctls == [Controller(k, h, true, Running, None)];
    r := ReachCheck(r, s, 2, Ensure(k, h));
    r := ReachLaunch(r, r.states[|r.events|], 2, k, h);
  }

  /** A run in which one controller has been launched and registered. */
  lemma RunningOnce(k: Key, h: Hash) returns (r: Run)
    ensures r.Valid()
    ensures r.states[|r.events|] ==
            State(map[0 := Thread(Ensure(k, h), Finished(Some(0)))], {}, None, [Controller(k, h, false, Running, None)], map[k := 0])
  {
    var s := State(map[], {}, None, [], map[]);
    r := Run([s], []);
    r := ReachCheck(r, s, 0, Ensure(k, h));
    r := ReachLaunch(r, r.states[|r.events|], 0, k, h);
    s := r.states[|r.events|];
    r := Extend(r, Register(0, 0), s.(controllers := map[k := 0]).Goto(0, Release(Some(0))));
    r := Extend(r, Unlock(0), s.(controllers := map[k := 0], writer := None).Goto(0, Finished(Some(0))));
  }

  // ---- failed ensures and their contexts ----

  /** A context nobody can reach any more: not launched, not in the map, not held by any call. */
  predicate Orphan(s: State, c: Cid) {
    && c < |s.ctls| && !s.ctls[c].Started()
    && forall t :: t in s.threads ==> !s.threads[t].pc.Building(c)
  }

  lemma BuildingOnlyGrows(s: State, e: Event, s': State, c: Cid)
    requires Step(s, e, s') && !e.Begin? && !ByController(e)
    ensures e.t in s'.threads
    ensures s'.threads[e.t].pc.Building(c) ==> s.threads[e.t].pc.Building(c) || c == |s.ctls|
  {
    assert ThreadStep(s, e, s', s.threads[e.t]);
    match e
    case Look(_) =>
    case RUnlock(_) =>
    case Succeed(_) =>
    case Fail(_) =>
    case _ =>
  }

  lemma OnlyOwnersTouch(s: State, e: Event, s': State, c: Cid)
    requires Inv(s) && Step(s, e, s') && c < |s.ctls| && !s.ctls[c].Started()
    ensures c < |s'.ctls|
    ensures s'.ctls[c] != s.ctls[c] ==> !e.Begin? && !ByController(e) && s.threads[e.t].pc.Building(c)
  {
    StepGrows(s, e, s');
    assert ControllerOk(s, c);
    if !e.Begin? && !ByController(e) {
      assert ThreadOk(s, s.threads[e.t]);
      assert ThreadStep(s, e, s', s.threads[e.t]);
    }
  }

  lemma OrphanStep(s: State, e: Event, s': State, c: Cid)
    requires Inv(s) && Step(s, e, s') && Orphan(s, c)
    ensures Orphan(s', c) && s'.ctls[c] == s.ctls[c]
  {
    StepGrows(s, e, s');
    OnlyOwnersTouch(s, e, s', c);
    if !e.Begin? && !ByController(e) {
      BuildingOnlyGrows(s, e, s', c);
    }
  }

  lemma FailLeavesOrphan(s: State, e: Event, s': State, c: Cid)
    requires Inv(s) && Step(s, e, s') && e.Fail? && s.threads[e.t].pc.Building(c)
    ensures Orphan(s', c)
    ensures s'.ctls[c].stopped <==> !s.threads[e.t].pc.WatchChannel?
  {
    ActorOk(s, e, s');
    OnlyWriter(s, e.t);
    hide Inv, Step, ThreadStep, ThreadOk;
    FailTouches(s, e, s', c);
  }

  lemma OnlyWriter(s: State, w: Tid)
    requires Inv(s) && s.writer == Some(w)
    ensures forall t :: t in s.threads && t != w ==> !s.threads[t].pc.HoldsWrite()
  {
    hide ThreadOk, ControllerOk, MapOk;
  }

  lemma FailTouches(s: State, e: Event, s': State, c: Cid)
    requires e.Fail? && e.t in s.threads && s.threads[e.t].pc.Building(c)
    requires ThreadOk(s, s.threads[e.t]) && ThreadStep(s, e, s', s.threads[e.t])
    ensures c < |s'.ctls| && !s'.ctls[c].Started() && (s'.ctls[c].stopped <==> !s.threads[e.t].pc.WatchChannel?)
    ensures e.t in s'.threads && !s'.threads[e.t].pc.Building(c) && s'.threads == s.threads[e.t := s'.threads[e.t]]
  {
  }

  /**
   A failed ensure cancels the context it created on every exit but one: a context whose channel
   watch failed is never cancelled, not then and not at any later time, though nothing uses it.
   */
  lemma {:induction false} FailedEnsureCancels(r: Run, i: nat, n: nat, c: Cid)
    requires r.Valid() && i < n < |r.states| && r.events[i].Fail?
    requires r.events[i].t in r.states[i].threads && r.states[i].threads[r.events[i].t].pc.Building(c)
    ensures c < |r.states[n].ctls| && !r.states[n].ctls[c].Started()
    ensures r.states[n].ctls[c].stopped <==> !r.states[i].threads[r.events[i].t].pc.WatchChannel?
  {
    InvAlways(r, i);
    assert Step(r.states[i], r.events[i], r.states[i + 1]);
    FailLeavesOrphan(r.states[i], r.events[i], r.states[i + 1], c);
    OrphanForever(r, i + 1, n, c);
  }

  lemma {:induction false} OrphanForever(r: Run, i: nat, n: nat, c: Cid)
    requires r.Valid() && i <= n < |r.states| && Orphan(r.states[i], c)
    ensures Orphan(r.states[n], c) && r.states[n].ctls[c] == r.states[i].ctls[c]
  {
    assert c < |r.states[i].ctls|;
    if i < n {
      hide Step, Inv, Init;
      OrphanForever(r, i, n - 1, c);
      InvAlways(r, n - 1);
      OrphanStep(r.states[n - 1], r.events[n - 1], r.states[n], c);
    }
  }

  // ---- progress ----

  /**
   No call waits for ever on another: while a call is unfinished some goroutine can take a step. The
   one step that needs the environment is a stopped controller's Start returning.
   */
  lemma NeverStuck(r: Run, n: nat, t: Tid) returns (e: Event, s': State)
    requires r.Valid() && n < |r.states|
    requires t in r.states[n].threads && !r.states[n].threads[t].pc.Finished?
    ensures !e.Begin? && Step(r.states[n], e, s')
    ensures e.CtlReturn? ==> e.c < |r.states[n].ctls| && r.states[n].ctls[e.c].stopped
    ensures e.RLock? ==> forall u :: u in r.states[n].threads ==> !r.states[n].threads[u].pc.WantLock?
  {
    var s := r.states[n];
    InvAlways(r, n);
    if s.writer.Some? {
      e, s' := WriterCanStep(s, s.writer.value);
    } else if w :| w in s.readers {
      var pc := s.threads[w].pc;
      if pc.Peek? {
        e, s' := Look(w), s.Goto(w, AfterLook(s, s.threads[w]));
      } else {
        e := RUnlock(w);
        s' := s.(readers := s.readers - {w}).Goto(w,
          if pc.ReleaseHit? then Finished(Some(pc.c)) else if pc.ReleaseMiss? then WantLock else Finished(None));
      }
    } else if w :| w in s.threads && s.threads[w].pc.WantLock? {
      e, s' := Lock(w), s.(writer := Some(w)).Goto(w, Check);
    } else {
      assert !Held(s, t, false) && !Held(s, t, true);
      e, s' := RLock(t), s.(readers := s.readers + {t}).Goto(t, Peek);
    }
  }

  lemma WriterCanStep(s: State, w: Tid) returns (e: Event, s': State)
    requires Inv(s) && s.writer == Some(w)
    ensures !e.Begin? && !e.RLock? && Step(s, e, s')
    ensures e.CtlReturn? ==> e.c < |s.ctls| && s.ctls[e.c].stopped
  {
    var pc := s.threads[w].pc;
    assert ThreadOk(s, s.threads[w]);
    if pc.WaitOld? {
      assert ControllerOk(s, pc.c);
      hide Inv, Step;
      e, s' := WaiterCanStep(s, w);
    } else {
      hide Inv, Step;
      if pc.Check? || pc.StopOld? || pc.DeleteOld? || pc.Release? {
        e, s' := ReplacerCanStep(s, w);
      } else {
        e, s' := CreatorCanStep(s, w);
      }
    }
  }

  /** Waiting for a stopped controller: it goes on to close done, or it has. */
  lemma WaiterCanStep(s: State, w: Tid) returns (e: Event, s': State)
    requires w in s.threads && s.threads[w].pc.WaitOld? && ThreadOk(s, s.threads[w]) && ControllerOk(s, s.threads[w].pc.c)
    requires InMap(s, s.threads[w].pc.c)
    ensures !e.Begin? && !e.RLock? && Step(s, e, s')
    ensures e.CtlReturn? ==> e.c < |s.ctls| && s.ctls[e.c].stopped
  {
    var c := s.threads[w].pc.c;
    var ctl := s.ctls[c];
    match ctl.phase
    case Running => e, s' := CtlReturn(c, None), s.SetPhase(c, Returned(None));
    case Returned(err) =>
      e := CtlPublish(c);
      s' := s.(ctls := s.ctls[c := ctl.(startErr := if err == None then Some(ErrStopped) else err, phase := Published)]);
    case Published => e, s' := CtlClose(c), s.SetPhase(c, Closed);
    case Closed => e, s' := AwaitDone(w, c), s.Goto(w, DeleteOld(c));
  }

  lemma ReplacerCanStep(s: State, w: Tid) returns (e: Event, s': State)
    requires w in s.threads && ThreadOk(s, s.threads[w]) && MapOk(s)
    requires var pc := s.threads[w].pc; pc.Check? || pc.StopOld? || pc.DeleteOld? || pc.Release?
    ensures !e.Begin? && !e.RLock? && !ByController(e) && Step(s, e, s')
  {
    var th := s.threads[w];
    match th.pc
    case Check => e, s' := Look(w), s.Goto(w, AfterLook(s, th));
    case StopOld(c) =>
      e, s' := Stop(w, c), s.Cancel(c).Goto(w, if th.op.Ensure? then WaitOld(c) else DeleteOld(c));
    case DeleteOld(c) =>
      e := Delete(w);
      s' := s.(controllers := s.controllers - {th.op.key}).Goto(w, if th.op.Ensure? then Configure else Release(None));
    case Release(res) => e, s' := Unlock(w), s.(writer := None).Goto(w, Finished(res));
  }

  lemma CreatorCanStep(s: State, w: Tid) returns (e: Event, s': State)
    requires w in s.threads && ThreadOk(s, s.threads[w])
    requires var pc := s.threads[w].pc; pc.Configure? || pc.NewController? || pc.BuildCache? || pc.WatchChannel? || pc.Launch? || pc.Store?
    ensures !e.Begin? && !e.RLock? && !ByController(e) && Step(s, e, s')
  {
    var th := s.threads[w];
    match th.pc
    case Configure => e, s' := Fail(w), s.Goto(w, Release(None));
    case NewController(c) => e, s' := Succeed(w), s.Goto(w, BuildCache(c));
    case BuildCache(c) => e, s' := Succeed(w), s.Goto(w, WatchChannel(c));
    case WatchChannel(c) => e, s' := Succeed(w), s.Goto(w, Launch(c));
    case Launch(c) => e, s' := Go(w, c), s.SetPhase(c, Running).Goto(w, Store(c));
    case Store(c) => e, s' := Register(w, c), s.(controllers := s.controllers[th.op.key := c]).Goto(w, Release(Some(c)));
  }
}
