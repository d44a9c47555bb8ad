/**
 The token refreshing round tripper: any number of goroutines run RoundTrip or TriggerRefresh
 over one RWMutex that is released, upgraded, re-checked and downgraded again.

 Every statement that touches the mutex, the clock, the token server or the two shared fields is
 one atomic step. A run is a list of states joined by labelled steps, so the theorems below speak
 about what happened earlier in a run without any history variables in the state.
 */
module TokenRefresh {
  import opened History

  type Tid = nat
  type Token = string

  /** tokenNeedsRefresh compares the remaining lifetime with one hour, in seconds here. */
  const HOUR := 3600

  datatype Op = RoundTrip | TriggerRefresh

  /** Where a goroutine stands. R: it holds the read lock, W: it holds the write lock. */
  datatype Pc =
    | Entry                                // about to RLock
    | FastCheck                            // R
    | ReleaseRead                          // R, start of refreshTokenReadLocked
    | CallLock                             // neither
    | AwaitLock                            // neither, Lock called and waiting
    | Recheck                              // W
    | StartCreate                          // W, found the token stale
    | InFlight                             // W, CreateToken is running
    | StoreToken(tok: Token, exp: int)     // W
    | StoreExpiration(expiry: int)         // W
    | ReleaseWrite(ok: bool)               // W, deferred Unlock
    | Reacquire(ok: bool)                  // neither, deferred RLock
    | Returned(ok: bool)                   // R, back in the caller
    | ReadToken                            // R
    | ReleaseAfterRead(bearer: Token)      // R
    | ReleaseAfterFailure                  // R
    | ReleaseTrigger(ok: bool)             // R, deferred RUnlock of TriggerRefresh
    | Sending(bearer: Token)               // neither
    | Finished(ok: bool)
  {
    predicate HoldsRead() {
      FastCheck? || ReleaseRead? || Returned? || ReadToken? || ReleaseAfterRead? || ReleaseAfterFailure? ||
      ReleaseTrigger?
    }

    predicate HoldsWrite() {
      Recheck? || StartCreate? || InFlight? || StoreToken? || StoreExpiration? || ReleaseWrite?
    }

    /** The stored token is one this goroutine may go on to read. */
    predicate Cleared() {
      ReadToken? || StoreExpiration? || ((ReleaseWrite? || Reacquire? || Returned?) && ok)
    }

    predicate RoundTripOnly() {
      FastCheck? || ReadToken? || ReleaseAfterRead? || ReleaseAfterFailure? || Sending?
    }

    /** Whether the call succeeds has been decided and is carried along. */
    predicate Decided() { ReleaseWrite? || Reacquire? || Returned? || ReleaseTrigger? || Finished? }

    /** No CreateToken call is ahead of this goroutine any more. */
    predicate PastCreate() {
      ReleaseWrite? || Reacquire? || Returned? || ReadToken? || ReleaseAfterRead? || ReleaseAfterFailure? ||
      ReleaseTrigger? || Sending? || Finished?
    }
  }

  datatype Thread = Thread(op: Op, pc: Pc)

  /**
   The mutex is what Go keeps: a count of readers and a writer flag, no record of owners.
   An RUnlock without readers or an Unlock without a writer would crash the process.
   */
  datatype State = State(
    threads: map<Tid, Thread>,
    readers: int,
    writer: bool,
    now: int,
    token: Token,
    expiration: int)
  {
    predicate Stale() { expiration - now < HOUR }
  }

  datatype Event =
    | Tick(d: nat)
    | Begin(t: Tid, op: Op)
    | RLock(t: Tid)
    | RUnlock(t: Tid)
    | CheckFresh(t: Tid)
    | CheckStale(t: Tid)
    | RequestLock(t: Tid)
    | Lock(t: Tid)
    | Unlock(t: Tid)
    | CreateCall(t: Tid)
    | CreateOk(t: Tid, tok: Token, exp: int)
    | CreateErr(t: Tid)
    | WriteToken(t: Tid)
    | WriteExpiration(t: Tid)
    | Return(t: Tid)
    | TakeToken(t: Tid)
    | Send(t: Tid, bearer: Token)

  predicate Init(s: State) {
    s.threads == map[] && s.readers == 0 && !s.writer
  }

  /** One atomic step. A goroutine that finished may begin again as a new call. */
  predicate Step(s: State, e: Event, s': State) {
    match e
    case Tick(d) => s' == s.(now := s.now + d)
    case Begin(t, op) =>
      && (t in s.threads ==> s.threads[t].pc.Finished?)
      && s' == s.(threads := s.threads[t := Thread(op, Entry)])
    case _ => e.t in s.threads && s' == Act(s, e, s.threads[e.t]) && Enabled(s, e)
  }

  predicate Enabled(s: State, e: Event)
    requires !e.Tick? && !e.Begin? && e.t in s.threads
  {
    var pc := s.threads[e.t].pc;
    match e
    case RLock(_) => !s.writer && (pc.Entry? || pc.Reacquire?)
    case RUnlock(_) => pc.ReleaseRead? || pc.ReleaseAfterRead? || pc.ReleaseAfterFailure? || pc.ReleaseTrigger?
    case CheckFresh(_) => !s.Stale() && (pc.FastCheck? || pc.Recheck?)
    case CheckStale(_) => s.Stale() && (pc.FastCheck? || pc.Recheck?)
    case RequestLock(_) => pc.CallLock?
    case Lock(_) => !s.writer && s.readers == 0 && pc.AwaitLock?
    case Unlock(_) => pc.ReleaseWrite?
    case CreateCall(_) => pc.StartCreate?
    case CreateOk(_, _, _) => pc.InFlight?
    case CreateErr(_) => pc.InFlight?
    case WriteToken(_) => pc.StoreToken?
    case WriteExpiration(_) => pc.StoreExpiration?
    case Return(_) => pc.Returned?
    case TakeToken(_) => pc.ReadToken?
    case Send(_, b) => pc.Sending? && b == pc.bearer
  }

  /** Where an enabled step takes the goroutine; TakeToken reads the stored token. */
  function NextPc(e: Event, th: Thread, stored: Token): Pc {
    match e
    case RLock(_) =>
      (match th.pc
       case Entry => if th.op.RoundTrip? then FastCheck else ReleaseRead
       case Reacquire(ok) => Returned(ok)
       case pc => pc)
    case RUnlock(_) =>
      (match th.pc
       case ReleaseRead => CallLock
       case ReleaseAfterRead(b) => Sending(b)
       case ReleaseAfterFailure => Finished(false)
       case ReleaseTrigger(ok) => Finished(ok)
       case pc => pc)
    case CheckFresh(_) => if th.pc.FastCheck? then ReadToken else ReleaseWrite(true)
    case CheckStale(_) => if th.pc.FastCheck? then ReleaseRead else StartCreate
    case RequestLock(_) => AwaitLock
    case Lock(_) => Recheck
    case Unlock(_) => if th.pc.ReleaseWrite? then Reacquire(th.pc.ok) else th.pc
    case CreateCall(_) => InFlight
    case CreateOk(_, tok, exp) => StoreToken(tok, exp)
    case CreateErr(_) => ReleaseWrite(false)
    case WriteToken(_) => if th.pc.StoreToken? then StoreExpiration(th.pc.exp) else th.pc
    case WriteExpiration(_) => ReleaseWrite(true)
    case Return(_) =>
      if !th.pc.Returned? then th.pc
      else if th.op.TriggerRefresh? then ReleaseTrigger(th.pc.ok)
      else if th.pc.ok then ReadToken
      else ReleaseAfterFailure
    case TakeToken(_) => ReleaseAfterRead(stored)
    case Send(_, _) => Finished(true)
    case _ => th.pc
  }

  /** The effect of an enabled step on the goroutine, the mutex and the shared fields. */
  function Act(s: State, e: Event, th: Thread): State
    requires !e.Tick? && !e.Begin?
  {
    State(
      s.threads[e.t := th.(pc := NextPc(e, th, s.token))],
      s.readers + (if e.RLock? then 1 else if e.RUnlock? then -1 else 0),
      if e.Lock? then true else if e.Unlock? then false else s.writer,
      s.now,
      if e.WriteToken? && th.pc.StoreToken? then th.pc.tok else s.token,
      if e.WriteExpiration? && th.pc.StoreExpiration? then th.pc.expiry else s.expiration)
  }

  datatype Run = Run(states: seq<State>, events: seq<Event>)
  {
    ghost predicate Valid() {
      && |states| == |events| + 1
      && Init(states[0])
      && forall i :: 0 <= i < |events| ==> Step(states[i], events[i], states[i + 1])
    }
  }

  // ---- the invariant of the mutex ----

  function ReadHolders(s: State): set<Tid> { set t | t in s.threads && s.threads[t].pc.HoldsRead() }

  function WriteHolders(s: State): set<Tid> { set t | t in s.threads && s.threads[t].pc.HoldsWrite() }

  ghost predicate LockInv(s: State) {
    && s.readers == |ReadHolders(s)|
    && (forall t, u :: t in WriteHolders(s) && u in WriteHolders(s) ==> t == u)
    && (s.writer <==> WriteHolders(s) != {})
    && (s.writer ==> ReadHolders(s) == {})
  }

  /** A goroutine that may call CreateToken still sees a stale token; only round trips read the token. */
  predicate LocalOk(s: State, th: Thread) {
    && (th.pc.StartCreate? || th.pc.InFlight? ==> s.Stale())
    && (th.pc.RoundTripOnly() ==> th.op.RoundTrip?)
    && (th.pc.ReleaseTrigger? ==> th.op.TriggerRefresh?)
  }

  ghost predicate Inv(s: State) {
    && LockInv(s)
    && forall t :: t in s.threads ==> LocalOk(s, s.threads[t])
  }

  function Delta(before: bool, after: bool): int { (if after then 1 else 0) - (if before then 1 else 0) }

  predicate Held(s: State, t: Tid, write: bool) {
    t in s.threads && if write then s.threads[t].pc.HoldsWrite() else s.threads[t].pc.HoldsRead()
  }

  lemma ThreadEffect(s: State, e: Event, s': State)
    requires Step(s, e, s') && !e.Tick?
    ensures e.t in s'.threads
    ensures s'.threads == s.threads[e.t := s'.threads[e.t]]
  {
    match e
    case Begin(_, _) =>
    case _ =>
  }

  /** Only RLock takes a read hold and only RUnlock gives one back. */
  lemma ReadHoldMoves(s: State, e: Event)
    requires !e.Tick? && !e.Begin? && e.t in s.threads && Enabled(s, e)
    ensures var before := s.threads[e.t].pc.HoldsRead();
            var after := NextPc(e, s.threads[e.t], s.token).HoldsRead();
            && (e.RLock? ==> !before && after)
            && (e.RUnlock? ==> before && !after)
            && (!e.RLock? && !e.RUnlock? ==> before == after)
  {
  }

  /** Only Lock takes the write hold and only Unlock gives it back. */
  lemma WriteHoldMoves(s: State, e: Event)
    requires !e.Tick? && !e.Begin? && e.t in s.threads && Enabled(s, e)
    ensures var before := s.threads[e.t].pc.HoldsWrite();
            var after := NextPc(e, s.threads[e.t], s.token).HoldsWrite();
            && (e.Lock? ==> !before && after)
            && (e.Unlock? ==> before && !after)
            && (!e.Lock? && !e.Unlock? ==> before == after)
  {
  }

  lemma BeginHoldsNothing(s: State, e: Event, s': State)
    requires Step(s, e, s') && e.Begin?
    ensures !Held(s, e.t, false) && !Held(s, e.t, true) && !Held(s', e.t, false) && !Held(s', e.t, true)
    ensures s'.readers == s.readers && s'.writer == s.writer
  {
  }

  lemma ReaderEffect(s: State, e: Event, s': State)
    requires Step(s, e, s') && !e.Tick?
    ensures s'.readers == s.readers + Delta(Held(s, e.t, false), Held(s', e.t, false))
    ensures Held(s', e.t, false) && !Held(s, e.t, false) ==> e.RLock? && !s.writer
    ensures Held(s, e.t, false) && !Held(s', e.t, false) ==> e.RUnlock?
  {
    if e.Begin? {
      BeginHoldsNothing(s, e, s');
    } else {
      ReadHoldMoves(s, e);
      hide NextPc, Pc.HoldsRead, Pc.HoldsWrite;
    }
  }

  lemma WriterEffect(s: State, e: Event, s': State)
    requires Step(s, e, s') && !e.Tick?
    ensures Held(s', e.t, true) && !Held(s, e.t, true) ==> e.Lock? && !s.writer && s.readers == 0 && s'.writer
    ensures Held(s, e.t, true) && !Held(s', e.t, true) ==> e.Unlock? && !s'.writer
    ensures Held(s, e.t, true) == Held(s', e.t, true) ==> s'.writer == s.writer
  {
    if e.Begin? {
      BeginHoldsNothing(s, e, s');
    } else {
      WriteHoldMoves(s, e);
      hide NextPc, Pc.HoldsRead, Pc.HoldsWrite;
    }
  }

  /** What a step does to the mutex is exactly what it does to the acting goroutine's hold on it. */
  lemma MutexEffect(s: State, e: Event, s': State)
    requires Step(s, e, s') && !e.Tick?
    ensures e.t in s'.threads
    ensures s'.threads == s.threads[e.t := s'.threads[e.t]]
    ensures s'.readers == s.readers + Delta(Held(s, e.t, false), Held(s', e.t, false))
    ensures Held(s', e.t, true) && !Held(s, e.t, true) ==> e.Lock? && !s.writer && s.readers == 0 && s'.writer
    ensures Held(s, e.t, true) && !Held(s', e.t, true) ==> e.Unlock? && !s'.writer
    ensures Held(s, e.t, true) == Held(s', e.t, true) ==> s'.writer == s.writer
    ensures Held(s', e.t, false) && !Held(s, e.t, false) ==> e.RLock? && !s.writer
    ensures Held(s, e.t, false) && !Held(s', e.t, false) ==> e.RUnlock?
  {
    hide Step, Held;
    ThreadEffect(s, e, s');
    ReaderEffect(s, e, s');
    WriterEffect(s, e, s');
  }

  /** The clock stands still in steps of goroutines, and the shared fields change one at a time. */
  lemma FieldEffect(s: State, e: Event, s': State)
    requires Step(s, e, s') && !e.Tick?
    ensures s'.now == s.now
    ensures s'.token != s.token ==> e.WriteToken?
    ensures s'.expiration != s.expiration ==> e.WriteExpiration?
    ensures e.WriteToken? || e.WriteExpiration? ==> Held(s, e.t, true)
  {
    match e
    case Begin(_, _) =>
    case RLock(_) =>
    case RUnlock(_) =>
    case Unlock(_) =>
    case _ =>
  }

  lemma HolderSets(s: State, s': State, t: Tid)
    requires t in s'.threads && s'.threads == s.threads[t := s'.threads[t]]
    ensures ReadHolders(s') == if Held(s', t, false) then ReadHolders(s) + {t} else ReadHolders(s) - {t}
    ensures WriteHolders(s') == if Held(s', t, true) then WriteHolders(s) + {t} else WriteHolders(s) - {t}
    ensures t in ReadHolders(s) <==> Held(s, t, false)
    ensures t in WriteHolders(s) <==> Held(s, t, true)
  {
  }

  lemma LockInvStep(s: State, e: Event, s': State)
    requires LockInv(s) && Step(s, e, s')
    ensures LockInv(s')
  {
    hide Held;
    if e.Tick? {
      assert ReadHolders(s') == ReadHolders(s) && WriteHolders(s') == WriteHolders(s);
    } else {
      MutexEffect(s, e, s');
      HolderSets(s, s', e.t);
      LockInvMove(s, s', e.t);
    }
  }

  lemma LockInvMove(s: State, s': State, t: Tid)
    requires LockInv(s)
    requires t in s'.threads && s'.threads == s.threads[t := s'.threads[t]]
    requires s'.readers == s.readers + Delta(Held(s, t, false), Held(s', t, false))
    requires Held(s', t, true) && !Held(s, t, true) ==> !s.writer && s.readers == 0 && s'.writer
    requires Held(s, t, true) && !Held(s', t, true) ==> !s'.writer
    requires Held(s, t, true) == Held(s', t, true) ==> s'.writer == s.writer
    requires Held(s', t, false) && !Held(s, t, false) ==> !s.writer
    ensures LockInv(s')
  {
    HolderSets(s, s', t);
    if Held(s, t, true) {
      assert t in WriteHolders(s);
      assert WriteHolders(s) == {t};
    }
  }

  /** The goroutine's own part of the invariant after its own step. */
  lemma OwnLocalOk(s: State, e: Event, s': State)
    requires Step(s, e, s') && !e.Tick?
    requires e.t in s.threads ==> LocalOk(s, s.threads[e.t])
    ensures e.t in s'.threads && LocalOk(s', s'.threads[e.t])
  {
    match e
    case Begin(_, _) =>
    case RLock(_) =>
    case RUnlock(_) =>
    case Unlock(_) =>
    case _ =>
  }

  lemma InvStep(s: State, e: Event, s': State)
    requires Inv(s) && Step(s, e, s')
    ensures Inv(s')
  {
    LockInvStep(s, e, s');
    if !e.Tick? {
      MutexEffect(s, e, s');
      FieldEffect(s, e, s');
      OwnLocalOk(s, e, s');
      OthersLocalOk(s, e.t, s');
    }
  }

  lemma OthersLocalOk(s: State, t: Tid, s': State)
    requires Inv(s) && t in s'.threads && s'.threads == s.threads[t := s'.threads[t]]
    requires LocalOk(s', s'.threads[t])
    requires s'.now == s.now && (s'.expiration != s.expiration ==> Held(s, t, true))
    ensures forall u :: u in s'.threads ==> LocalOk(s', s'.threads[u])
  {
    forall u | u in s'.threads
      ensures LocalOk(s', s'.threads[u])
    {
      if u != t {
        assert LocalOk(s, s.threads[u]);
        if Held(s, t, true) && Held(s, u, true) {
          assert t in WriteHolders(s) && u in WriteHolders(s);
        }
      }
    }
  }

  lemma {:induction false} InvAlways(r: Run, n: nat)
    requires r.Valid() && n < |r.states|
    ensures Inv(r.states[n])
  {
    if n > 0 {
      InvAlways(r, n - 1);
      InvStep(r.states[n - 1], r.events[n - 1], r.states[n]);
    }
  }

  // ---- the mutex over whole runs ----

  /**
   Holds are balanced on every path: a release is only ever done by a goroutine that holds what it
   releases, and once every call has finished the mutex is free again.
   */
  lemma LockHoldsBalanced(r: Run, n: nat)
    requires r.Valid() && n < |r.states|
    ensures n < |r.events| && r.events[n].RUnlock? ==> Held(r.states[n], r.events[n].t, false) && r.states[n].readers > 0
    ensures n < |r.events| && r.events[n].Unlock? ==> Held(r.states[n], r.events[n].t, true) && r.states[n].writer
    ensures (forall t :: t in r.states[n].threads ==> r.states[n].threads[t].pc.Finished?) ==>
              r.states[n].readers == 0 && !r.states[n].writer
  {
    InvAlways(r, n);
    if n < |r.events| {
      assert Step(r.states[n], r.events[n], r.states[n + 1]);
      var e := r.events[n];
      if e.RUnlock? {
        assert e.t in ReadHolders(r.states[n]);
      } else if e.Unlock? {
        assert e.t in WriteHolders(r.states[n]);
      }
    }
  }

  /**
   At most one CreateToken call is in flight. It starts only while the stored token is stale, and
   neither starts nor runs while any goroutine holds the lock for reading.
   */
  lemma OneCreateTokenInFlight(r: Run, n: nat, t: Tid, u: Tid)
    requires r.Valid() && n < |r.states| && t in r.states[n].threads && u in r.states[n].threads
    ensures r.states[n].threads[t].pc.InFlight? && r.states[n].threads[u].pc.InFlight? ==> t == u
    ensures r.states[n].threads[t].pc.InFlight? ==> r.states[n].Stale() && !Held(r.states[n], u, false)
    ensures n < |r.events| && r.events[n] == CreateCall(t) ==>
              r.states[n].Stale() && !Held(r.states[n], u, false) && !r.states[n].threads[u].pc.InFlight?
  {
    InvAlways(r, n);
    var s := r.states[n];
    assert LocalOk(s, s.threads[t]);
    assert Held(s, t, true) ==> t in WriteHolders(s);
    assert Held(s, u, true) ==> u in WriteHolders(s);
    assert Held(s, u, false) ==> u in ReadHolders(s);
    if n < |r.events| {
      assert Step(r.states[n], r.events[n], r.states[n + 1]);
    }
  }

  // ---- token and expiration are one value ----

  /** Index of the last CreateToken answer before position n, or -1. */
  function LastIssue(r: Run, n: nat): (k: int)
    requires n <= |r.events|
    ensures -1 <= k < n
    ensures k >= 0 ==> r.events[k].CreateOk?
    ensures forall i :: k < i < n ==> !r.events[i].CreateOk?
  {
    Last(r.events, n, (e: Event) => e.CreateOk?)
  }

  function IssuedToken(r: Run, k: int): Token
    requires -1 <= k < |r.events| && |r.states| > 0 && (k >= 0 ==> r.events[k].CreateOk?)
  {
    if k < 0 then r.states[0].token else r.events[k].tok
  }

  function IssuedExpiration(r: Run, k: int): int
    requires -1 <= k < |r.events| && |r.states| > 0 && (k >= 0 ==> r.events[k].CreateOk?)
  {
    if k < 0 then r.states[0].expiration else r.events[k].exp
  }

  /** The pair last issued is stored, or its one writer is still storing it. */
  ghost predicate PairInv(s: State, tok: Token, exp: int) {
    && (forall t :: t in s.threads && s.threads[t].pc.StoreToken? ==> s.threads[t].pc == StoreToken(tok, exp))
    && (forall t :: t in s.threads && s.threads[t].pc.StoreExpiration? ==>
          s.threads[t].pc.expiry == exp && s.token == tok)
    && ((forall t :: t in s.threads ==> !s.threads[t].pc.StoreToken? && !s.threads[t].pc.StoreExpiration?) ==>
          s.token == tok && s.expiration == exp)
  }

  /** The write lock is exclusive, said of program counters. */
  lemma SoleWriter(s: State, t: Tid)
    requires Inv(s)
    ensures Held(s, t, true) ==> s.writer && forall u :: u in s.threads && u != t ==> !s.threads[u].pc.HoldsWrite()
    ensures s.writer ==> forall u :: u in s.threads ==> !s.threads[u].pc.HoldsRead()
    ensures !s.writer ==> forall u :: u in s.threads ==> !s.threads[u].pc.HoldsWrite()
  {
    assert forall u :: u in s.threads && s.threads[u].pc.HoldsWrite() ==> u in WriteHolders(s);
    assert forall u :: u in s.threads && s.threads[u].pc.HoldsRead() ==> u in ReadHolders(s);
  }

  lemma OnlyWriterStores(s: State, t: Tid)
    requires Inv(s)
    ensures Held(s, t, true) ==> forall u :: u in s.threads && u != t ==>
              !s.threads[u].pc.StoreToken? && !s.threads[u].pc.StoreExpiration?
  {
    SoleWriter(s, t);
  }

  /** A step that stores nothing and is not about to store keeps the pair. */
  lemma PairQuiet(s: State, s': State, t: Tid, tok: Token, exp: int)
    requires PairInv(s, tok, exp)
    requires t in s'.threads && s'.threads == s.threads[t := s'.threads[t]]
    requires s'.token == s.token && s'.expiration == s.expiration
    requires t in s.threads ==> !s.threads[t].pc.StoreToken? && !s.threads[t].pc.StoreExpiration?
    requires !s'.threads[t].pc.StoreToken? && !s'.threads[t].pc.StoreExpiration?
    ensures PairInv(s', tok, exp)
  {
    assert forall u :: u in s.threads && u != t ==> s'.threads[u] == s.threads[u];
  }

  /** With one goroutine alone at the stores, the pair is what it is about to write or has written. */
  lemma PairStored(s: State, t: Tid, tok: Token, exp: int)
    requires t in s.threads
    requires forall u :: u in s.threads && u != t ==> !s.threads[u].pc.StoreToken? && !s.threads[u].pc.StoreExpiration?
    requires var pc := s.threads[t].pc;
             || pc == StoreToken(tok, exp)
             || (pc == StoreExpiration(exp) && s.token == tok)
             || (!pc.StoreToken? && !pc.StoreExpiration? && s.token == tok && s.expiration == exp)
    ensures PairInv(s, tok, exp)
  {
  }

  lemma PairStep(s: State, e: Event, s': State, tok: Token, exp: int)
    requires Inv(s) && PairInv(s, tok, exp) && Step(s, e, s')
    ensures PairInv(s', if e.CreateOk? then e.tok else tok, if e.CreateOk? then e.exp else exp)
  {
    if !e.Tick? {
      MutexEffect(s, e, s');
      FieldEffect(s, e, s');
      OwnPair(s, e, s', tok, exp);
      hide Step, Inv, Held, PairInv;
      if e.CreateOk? || e.WriteToken? || e.WriteExpiration? {
        OnlyWriterStores(s, e.t);
        PairStored(s', e.t, if e.CreateOk? then e.tok else tok, if e.CreateOk? then e.exp else exp);
      } else {
        PairQuiet(s, s', e.t, tok, exp);
      }
    }
  }

  /** The acting goroutine's part of PairStep. */
  lemma OwnPair(s: State, e: Event, s': State, tok: Token, exp: int)
    requires Step(s, e, s') && !e.Tick?
    requires e.t in s.threads && s.threads[e.t].pc.StoreToken? ==> s.threads[e.t].pc == StoreToken(tok, exp)
    requires e.t in s.threads && s.threads[e.t].pc.StoreExpiration? ==> s.threads[e.t].pc.expiry == exp && s.token == tok
    ensures e.t in s'.threads
    ensures var pc' := s'.threads[e.t].pc;
            && (pc'.StoreToken? ==> e.CreateOk? && pc' == StoreToken(e.tok, e.exp))
            && (e.CreateOk? ==> pc'.StoreToken? && Held(s, e.t, true))
            && (pc'.StoreExpiration? ==> e.WriteToken? && pc'.expiry == exp && s'.token == tok)
            && (e.WriteToken? ==> pc'.StoreExpiration?)
            && (e.WriteExpiration? ==>
                  && !pc'.StoreToken? && !pc'.StoreExpiration?
                  && s.threads[e.t].pc.StoreExpiration? && s'.expiration == exp && s'.token == tok)
            && (!e.WriteToken? && !e.WriteExpiration? && !e.CreateOk? && e.t in s.threads ==>
                  !s.threads[e.t].pc.StoreToken? && !s.threads[e.t].pc.StoreExpiration?)
  {
    match e
    case Begin(_, _) =>
    case RLock(_) =>
    case RUnlock(_) =>
    case Unlock(_) =>
    case _ =>
  }

  lemma {:induction false} PairAlways(r: Run, n: nat)
    requires r.Valid() && n < |r.states|
    ensures PairInv(r.states[n], IssuedToken(r, LastIssue(r, n)), IssuedExpiration(r, LastIssue(r, n)))
  {
    if n > 0 {
      PairAlways(r, n - 1);
      InvAlways(r, n - 1);
      var k := LastIssue(r, n - 1);
      PairStep(r.states[n - 1], r.events[n - 1], r.states[n], IssuedToken(r, k), IssuedExpiration(r, k));
    }
  }

  /**
   Token and expiration are written together: whenever nobody holds the write lock, the two shared
   fields are the pair of one CreateToken answer, the latest one. They only change under the write lock.
   */
  lemma StoredPairIsLastIssued(r: Run, n: nat)
    requires r.Valid() && n < |r.states|
    ensures !r.states[n].writer ==>
              && r.states[n].token == IssuedToken(r, LastIssue(r, n))
              && r.states[n].expiration == IssuedExpiration(r, LastIssue(r, n))
    ensures n < |r.events| && (r.states[n + 1].token, r.states[n + 1].expiration) != (r.states[n].token, r.states[n].expiration) ==>
              r.states[n].writer && !r.events[n].Tick? && Held(r.states[n], r.events[n].t, true)
  {
    InvAlways(r, n);
    PairAlways(r, n);
    var s := r.states[n];
    SoleWriter(s, 0);
    if n < |r.events| {
      assert Step(s, r.events[n], r.states[n + 1]);
      if !r.events[n].Tick? {
        FieldEffect(s, r.events[n], r.states[n + 1]);
        SoleWriter(s, r.events[n].t);
      }
    }
  }

  /**
   Calls are spaced across all goroutines together: a CreateToken call at j only starts once the
   token of the latest answer has less than an hour left. So if every answer is valid for at least
   `life` seconds when it arrives, more than life minus one hour passes between an answer and the next call.
   */
  lemma CreateTokenCallsAreSpaced(r: Run, j: nat, life: int)
    requires r.Valid() && j < |r.events| && r.events[j].CreateCall?
    ensures var k := LastIssue(r, j);
            && IssuedExpiration(r, k) - r.states[j].now < HOUR
            && (k >= 0 && r.events[k].exp >= r.states[k].now + life ==> r.states[j].now - r.states[k].now > life - HOUR)
  {
    var s := r.states[j];
    InvAlways(r, j);
    PairAlways(r, j);
    var t := r.events[j].t;
    assert Step(s, r.events[j], r.states[j + 1]);
    assert LocalOk(s, s.threads[t]);
    SoleWriter(s, t);
  }

  // ---- what every bearer rests on ----

  /** Index of goroutine t's last Begin before position n, or -1. */
  function LastBegin(r: Run, n: nat, t: Tid): (k: int)
    requires n <= |r.events|
    ensures -1 <= k < n
    ensures k >= 0 ==> r.events[k].Begin? && r.events[k].t == t
    ensures forall i :: k < i < n ==> !(r.events[i].Begin? && r.events[i].t == t)
  {
    Last(r.events, n, Begins(t))
  }

  function Begins(t: Tid): Event -> bool { (e: Event) => e.Begin? && e.t == t }

  /** Event j vouches for tok on behalf of t: t's own freshness check of it, or the server issuing it. */
  predicate Vouches(r: Run, j: nat, t: Tid, tok: Token)
    requires j < |r.events| && |r.states| == |r.events| + 1
  {
    || (r.events[j] == CheckFresh(t) && r.states[j].token == tok && r.states[j].expiration - r.states[j].now >= HOUR)
    || (r.events[j].CreateOk? && r.events[j].tok == tok)
  }

  ghost predicate Vouched(r: Run, n: nat, t: Tid, tok: Token)
    requires n <= |r.events| && |r.states| == |r.events| + 1
  {
    exists j: nat :: LastBegin(r, n, t) < j < n && Vouches(r, j, t, tok)
  }

  /** What a goroutine relies on by its own standing: the stored token, or one in its hands. */
  predicate PcRelies(pc: Pc, stored: Token, tok: Token) {
    || (pc.Cleared() && stored == tok)
    || (pc.StoreToken? && pc.tok == tok)
    || ((pc.ReleaseAfterRead? || pc.Sending?) && pc.bearer == tok)
  }

  /** Tokens that t has taken or may still find stored when it reads. */
  predicate Relies(s: State, t: Tid, tok: Token) {
    t in s.threads &&
    var pc := s.threads[t].pc;
    || PcRelies(pc, s.token, tok)
    || (pc.Reacquire? && pc.ok && exists u :: u in s.threads && s.threads[u].pc.StoreToken? && s.threads[u].pc.tok == tok)
  }

  lemma PcReliesStep(s: State, e: Event, tok: Token)
    requires !e.Tick? && !e.Begin? && e.t in s.threads && Enabled(s, e)
    ensures var th := s.threads[e.t];
            var stored := if e.WriteToken? && th.pc.StoreToken? then th.pc.tok else s.token;
            && (PcRelies(NextPc(e, th, s.token), stored, tok) ==>
                  || PcRelies(th.pc, s.token, tok)
                  || (e.CheckFresh? && s.token == tok && !s.Stale())
                  || (e.CreateOk? && e.tok == tok))
            && (NextPc(e, th, s.token).Reacquire? ==> e.Unlock?)
  {
  }

  lemma ReliesOwnStep(s: State, e: Event, s': State, tok: Token)
    requires Inv(s) && Step(s, e, s') && !e.Tick? && Relies(s', e.t, tok)
    ensures !e.Begin?
    ensures || Relies(s, e.t, tok)
            || (e.CheckFresh? && s.token == tok && !s.Stale())
            || (e.CreateOk? && e.tok == tok)
  {
    if !e.Begin? {
      PcReliesStep(s, e, tok);
      WriteHoldMoves(s, e);
      SoleWriter(s, e.t); // nobody else is storing a token when the actor unlocks
      hide NextPc, Enabled, Inv;
    }
  }

  lemma ReliesOtherStep(s: State, e: Event, s': State, t: Tid, tok: Token)
    requires Inv(s) && Step(s, e, s') && !e.Tick? && t != e.t && Relies(s', t, tok)
    ensures Relies(s, t, tok) || (e.CreateOk? && e.tok == tok)
  {
    MutexEffect(s, e, s');
    assert Held(s, e.t, true) ==> e.t in WriteHolders(s);
    assert Held(s, t, true) ==> t in WriteHolders(s);
    assert Held(s, t, false) ==> t in ReadHolders(s);
    if e.WriteToken? {
      assert s.threads[e.t].pc.tok == s'.token;
    }
    if u :| u in s'.threads && s'.threads[u].pc.StoreToken? && s'.threads[u].pc.tok == tok {
      if u == e.t {
        StoresOnlyIssued(s, e, s');
      }
    }
  }

  lemma StoresOnlyIssued(s: State, e: Event, s': State)
    requires Step(s, e, s') && !e.Tick? && e.t in s'.threads && s'.threads[e.t].pc.StoreToken?
    ensures e.CreateOk? && s'.threads[e.t].pc.tok == e.tok
  {
    match e
    case Begin(_, _) =>
    case RLock(_) =>
    case RUnlock(_) =>
    case Unlock(_) =>
    case _ =>
  }

  lemma {:induction false} VouchedAlways(r: Run, n: nat, t: Tid, tok: Token)
    requires r.Valid() && n <= |r.events| && Relies(r.states[n], t, tok)
    ensures Vouched(r, n, t, tok)
  {
    assert n > 0;
    var s, e, s' := r.states[n - 1], r.events[n - 1], r.states[n];
    InvAlways(r, n - 1);
    assert Step(s, e, s');
    if !e.Tick? {
      if t == e.t { ReliesOwnStep(s, e, s', tok); } else { ReliesOtherStep(s, e, s', t, tok); }
    }
    if Relies(s, t, tok) {
      VouchedAlways(r, n - 1, t, tok);
      var j: nat :| LastBegin(r, n - 1, t) < j < n - 1 && Vouches(r, j, t, tok);
      assert LastBegin(r, n, t) == LastBegin(r, n - 1, t);
    } else {
      assert Vouches(r, n - 1, t, tok);
    }
  }

  /**
   Every bearer that is sent was, since that very RoundTrip began, either found fresh by a check of
   this goroutine or issued by a CreateToken call that completed, whoever made it.
   */
  lemma EveryBearerSentIsVouchedFor(r: Run, i: nat)
    requires r.Valid() && i < |r.events| && r.events[i].Send?
    ensures Vouched(r, i, r.events[i].t, r.events[i].bearer)
    ensures LastBegin(r, i, r.events[i].t) >= 0 && r.events[LastBegin(r, i, r.events[i].t)].op == RoundTrip
  {
    assert Step(r.states[i], r.events[i], r.states[i + 1]);
    VouchedAlways(r, i, r.events[i].t, r.events[i].bearer);
    InvAlways(r, i);
    assert LocalOk(r.states[i], r.states[i].threads[r.events[i].t]);
    BeganWithOp(r, i, r.events[i].t);
  }

  lemma {:induction false} BeganWithOp(r: Run, n: nat, t: Tid)
    requires r.Valid() && n <= |r.events| && t in r.states[n].threads
    ensures LastBegin(r, n, t) >= 0 && r.events[LastBegin(r, n, t)].op == r.states[n].threads[t].op
  {
    assert n > 0;
    var s, e, s' := r.states[n - 1], r.events[n - 1], r.states[n];
    assert Step(s, e, s');
    if !e.Tick? { MutexEffect(s, e, s'); }
    if !(e.Begin? && e.t == t) {
      assert t in s.threads;
      OpKept(s, e, s', t);
      BeganWithOp(r, n - 1, t);
    }
  }

  lemma OpKept(s: State, e: Event, s': State, t: Tid)
    requires Step(s, e, s') && t in s.threads && !(e.Begin? && e.t == t)
    ensures t in s'.threads && s'.threads[t].op == s.threads[t].op
  {
    match e
    case Tick(_) =>
    case Begin(_, _) =>
    case RLock(_) =>
    case RUnlock(_) =>
    case Unlock(_) =>
    case _ =>
  }

  /** Waiters that find the token refreshed ask for no lock and make no call of their own for the rest of that call. */
  lemma {:induction false} WaitersMakeNoCall(r: Run, i: nat, j: nat)
    requires r.Valid() && i < j < |r.events| && r.events[i].CheckFresh?
    requires LastBegin(r, j, r.events[i].t) < i
    ensures r.events[j] !in {RequestLock(r.events[i].t), Lock(r.events[i].t), CreateCall(r.events[i].t)}
  {
    PastCreateKept(r, i, j);
    assert Step(r.states[j], r.events[j], r.states[j + 1]);
  }

  lemma {:induction false} PastCreateKept(r: Run, i: nat, j: nat)
    requires r.Valid() && i < j <= |r.events| && r.events[i].CheckFresh?
    requires LastBegin(r, j, r.events[i].t) < i
    ensures r.events[i].t in r.states[j].threads && r.states[j].threads[r.events[i].t].pc.PastCreate()
    decreases j
  {
    var t := r.events[i].t;
    var s, e, s' := r.states[j - 1], r.events[j - 1], r.states[j];
    assert Step(s, e, s');
    if j == i + 1 {
    } else {
      PastCreateKept(r, i, j - 1);
      if e.Tick? || e.t != t {
        if !e.Tick? { MutexEffect(s, e, s'); }
      } else {
        PastCreateOwnStep(s, e, s');
      }
    }
  }

  lemma PastCreateOwnStep(s: State, e: Event, s': State)
    requires Step(s, e, s') && !e.Tick? && !e.Begin? && s.threads[e.t].pc.PastCreate()
    ensures e.t in s'.threads && s'.threads[e.t].pc.PastCreate()
  {
    match e
    case RLock(_) =>
    case RUnlock(_) =>
    case Unlock(_) =>
    case _ =>
  }

  // ---- how a call ends ----

  /** What the events of a goroutine say about its call. */
  datatype Mark = Failure | Grant | Dispatch | Staleness

  function Marks(m: Mark, t: Tid): Event -> bool {
    match m
    case Failure => (e: Event) => e == CreateErr(t)
    case Grant => (e: Event) => e == CheckFresh(t) || (e.CreateOk? && e.t == t)
    case Dispatch => (e: Event) => e.Send? && e.t == t
    case Staleness => (e: Event) => e == CheckStale(t)
  }

  /** Goroutine t did this since its call began. */
  ghost predicate Did(r: Run, n: nat, t: Tid, m: Mark)
    requires n <= |r.events|
  {
    Since(r.events, n, Begins(t), Marks(m, t))
  }

  /** Where a goroutine stands tells whether its call has failed, has a token granted, has sent its request. */
  predicate Shows(m: Mark, th: Thread) {
    match m
    case Failure => th.pc.ReleaseAfterFailure? || (th.pc.Decided() && !th.pc.ok)
    case Grant =>
      || th.pc.ReadToken? || th.pc.ReleaseAfterRead? || th.pc.Sending? || th.pc.StoreToken? || th.pc.StoreExpiration?
      || (th.pc.Decided() && th.pc.ok)
    case Dispatch => th.pc.Finished? && th.pc.ok && th.op.RoundTrip?
    case Staleness => th.op.RoundTrip? && (th.pc.ReleaseRead? || th.pc.CallLock?)
  }

  lemma ShowsStep(s: State, e: Event, s': State, m: Mark)
    requires Step(s, e, s') && !e.Tick? && !e.Begin? && LocalOk(s, s.threads[e.t])
    ensures e.t in s'.threads
    ensures m != Staleness ==> (Shows(m, s'.threads[e.t]) <==> Shows(m, s.threads[e.t]) || Marks(m, e.t)(e))
    ensures m == Staleness && Shows(m, s'.threads[e.t]) ==> Shows(m, s.threads[e.t]) || Marks(m, e.t)(e)
  {
    PcShows(s, e, m);
    hide NextPc, Shows, Marks, Enabled, LocalOk;
  }

  lemma PcShows(s: State, e: Event, m: Mark)
    requires !e.Tick? && !e.Begin? && e.t in s.threads && Enabled(s, e) && LocalOk(s, s.threads[e.t])
    ensures var th := s.threads[e.t];
            var th' := th.(pc := NextPc(e, th, s.token));
            && (m != Staleness ==> (Shows(m, th') <==> Shows(m, th) || Marks(m, e.t)(e)))
            && (m == Staleness && Shows(m, th') ==> Shows(m, th) || Marks(m, e.t)(e))
  {
    match m
    case Failure =>
    case Grant =>
    case Dispatch =>
    case Staleness =>
  }

  lemma {:induction false} ShowsWhatHappened(r: Run, n: nat, t: Tid, m: Mark)
    requires r.Valid() && n <= |r.events| && t in r.states[n].threads
    ensures m != Staleness ==> (Shows(m, r.states[n].threads[t]) <==> Did(r, n, t, m))
    ensures Shows(m, r.states[n].threads[t]) ==> Did(r, n, t, m)
  {
    hide Step, Since, Shows, Marks, Last, Inv;
    var s, e, s' := PreviousStep(r, n, t);
    SinceStep(r.events, n - 1, Begins(t), Marks(m, t));
    if e.Tick? || e.t != t {
      OthersShow(s, e, s', t, m);
      ShowsWhatHappened(r, n - 1, t, m);
    } else if e.Begin? {
      BeginShowsNothing(s, e, s', m);
    } else {
      InvAlways(r, n - 1);
      OwnShows(s, e, s', m);
      ShowsWhatHappened(r, n - 1, t, m);
    }
  }

  /** Where there are goroutines there was a step. */
  lemma PreviousStep(r: Run, n: nat, t: Tid) returns (s: State, e: Event, s': State)
    requires r.Valid() && n <= |r.events| && t in r.states[n].threads
    ensures n > 0 && s == r.states[n - 1] && e == r.events[n - 1] && s' == r.states[n] && Step(s, e, s')
  {
    assert n > 0;
    s, e, s' := r.states[n - 1], r.events[n - 1], r.states[n];
  }

  lemma OthersShow(s: State, e: Event, s': State, t: Tid, m: Mark)
    requires Step(s, e, s') && t in s'.threads && (e.Tick? || e.t != t)
    ensures t in s.threads && s'.threads[t] == s.threads[t] && !Marks(m, t)(e)
  {
    if !e.Tick? { ThreadEffect(s, e, s'); }
  }

  lemma BeginShowsNothing(s: State, e: Event, s': State, m: Mark)
    requires Step(s, e, s') && e.Begin?
    ensures e.t in s'.threads && !Shows(m, s'.threads[e.t])
  {
  }

  lemma OwnShows(s: State, e: Event, s': State, m: Mark)
    requires Inv(s) && Step(s, e, s') && !e.Tick? && !e.Begin?
    ensures e.t in s.threads && e.t in s'.threads
    ensures m != Staleness ==> (Shows(m, s'.threads[e.t]) <==> Shows(m, s.threads[e.t]) || Marks(m, e.t)(e))
    ensures m == Staleness && Shows(m, s'.threads[e.t]) ==> Shows(m, s.threads[e.t]) || Marks(m, e.t)(e)
  {
    hide LockInv, LocalOk, Shows, Marks, Act, Enabled;
    assert LocalOk(s, s.threads[e.t]);
    ShowsStep(s, e, s', m);
  }

  /**
   A call fails if and only if its own CreateToken call failed, and succeeds if and only if it found the
   token fresh, under either lock, or was issued one. A RoundTrip that succeeds has sent its request and
   one that fails has not; TriggerRefresh sends nothing.
   */
  lemma CallsEndAsTheyWent(r: Run, n: nat, t: Tid)
    requires r.Valid() && n <= |r.events| && t in r.states[n].threads && r.states[n].threads[t].pc.Finished?
    ensures var th := r.states[n].threads[t];
            && (!th.pc.ok <==> Did(r, n, t, Failure))
            && (th.pc.ok <==> Did(r, n, t, Grant))
            && (Did(r, n, t, Dispatch) <==> th.pc.ok && th.op == RoundTrip)
  {
    hide Did;
    ShowsWhatHappened(r, n, t, Failure);
    ShowsWhatHappened(r, n, t, Grant);
    ShowsWhatHappened(r, n, t, Dispatch);
  }

  /** A RoundTrip asks for the write lock only after it found the token stale, and no check found it fresh. */
  lemma LockIsAskedForStaleTokens(r: Run, n: nat)
    requires r.Valid() && n < |r.events| && r.events[n].RequestLock?
    ensures r.events[n].t in r.states[n].threads && !Did(r, n, r.events[n].t, Grant)
    ensures r.states[n].threads[r.events[n].t].op == RoundTrip ==> Did(r, n, r.events[n].t, Staleness)
  {
    assert Step(r.states[n], r.events[n], r.states[n + 1]);
    hide Did;
    ShowsWhatHappened(r, n, r.events[n].t, Grant);
    ShowsWhatHappened(r, n, r.events[n].t, Staleness);
  }

  // ---- progress ----

  /**
   No interleaving deadlocks: while some call is unfinished, an unfinished goroutine can take a step,
   even if a waiting writer keeps every new reader out.
   */
  lemma NeverStuck(r: Run, n: nat, t: Tid) returns (e: Event, s': State)
    requires r.Valid() && n < |r.states|
    requires t in r.states[n].threads && !r.states[n].threads[t].pc.Finished?
    ensures !e.Tick? && !e.Begin? && Step(r.states[n], e, s')
    ensures e.RLock? ==> forall u :: u in r.states[n].threads ==> !r.states[n].threads[u].pc.AwaitLock?
  {
    var s := r.states[n];
    InvAlways(r, n);
    if w :| w in ReadHolders(s) {
      e := HolderStep(s, w);
    } else if w :| w in WriteHolders(s) {
      e := HolderStep(s, w);
    } else {
      assert ReadHolders(s) == {} && !s.writer;
      if w :| w in s.threads && s.threads[w].pc.AwaitLock? {
        e := Lock(w);
      } else if s.threads[t].pc.CallLock? {
        e := RequestLock(t);
      } else if s.threads[t].pc.Sending? {
        e := Send(t, s.threads[t].pc.bearer);
      } else {
        assert !Held(s, t, false) by { assert t !in ReadHolders(s); }
        assert !Held(s, t, true) by { assert t !in WriteHolders(s); }
        e := RLock(t);
      }
    }
    s' := Act(s, e, s.threads[e.t]);
  }

  /** A goroutine that holds the lock never waits for it. */
  lemma HolderStep(s: State, w: Tid) returns (e: Event)
    requires Held(s, w, false) || Held(s, w, true)
    ensures !e.Tick? && !e.Begin? && !e.RLock? && e.t == w && Enabled(s, e)
  {
    e := match s.threads[w].pc
         case FastCheck => if s.Stale() then CheckStale(w) else CheckFresh(w)
         case Recheck => if s.Stale() then CheckStale(w) else CheckFresh(w)
         case StartCreate => CreateCall(w)
         case InFlight => CreateErr(w)
         case StoreToken(_, _) => WriteToken(w)
         case StoreExpiration(_) => WriteExpiration(w)
         case ReleaseWrite(_) => Unlock(w)
         case Returned(_) => Return(w)
         case ReadToken => TakeToken(w)
         case _ => RUnlock(w);
  }
}
