/**
 From the manager's non-blocking send to the instance's reconcile: a channel of capacity one, the
 channel source that takes events out of it and adds their request to the work queue, and a work
 queue that keeps at most one copy of a request, with one worker.

 The manager always sends the same request, so tokens of that one request are all there is to count.
 */
module EventCoalescing {

  const CAPACITY := 1

  /** buffered: in the channel; carried: taken by the source, not queued yet; queued: dirty in the work queue. */
  datatype State = State(buffered: nat, carried: nat, queued: bool, working: bool)
  {
    predicate Pending() { buffered > 0 || carried > 0 || queued }

    function Tokens(): nat { buffered + carried + (if queued then 1 else 0) }
  }

  datatype Event =
    | Push                      // a manager reconcile, whether or not its event is dropped
    | Take                      // the source receives from the channel
    | Enqueue                   // ... and adds the request to the queue
    | Start                     // an instance reconcile begins
    | Finish(requeue: bool)     // it ends, perhaps asking to run again

  predicate Step(s: State, e: Event, s': State) {
    match e
    case Push => s' == if s.buffered < CAPACITY then s.(buffered := s.buffered + 1) else s
    case Take => s.buffered > 0 && s' == s.(buffered := s.buffered - 1, carried := s.carried + 1)
    case Enqueue => s.carried > 0 && s' == s.(carried := s.carried - 1, queued := true)
    case Start => s.queued && !s.working && s' == s.(queued := false, working := true)
    case Finish(requeue) => s.working && s' == s.(working := false, queued := s.queued || requeue)
  }

  datatype Run = Run(states: seq<State>, events: seq<Event>)
  {
    ghost predicate Valid() {
      && |states| == |events| + 1
      && states[0] == State(0, 0, false, false)
      && forall i :: 0 <= i < |events| ==> Step(states[i], events[i], states[i + 1])
    }
  }

  /**
   No wake-up is lost: after any manager reconcile, as long as no instance reconcile has started since,
   a token is on its way, however many sends found the channel full and were dropped.
   */
  lemma {:induction false} NoWakeUpIsLost(r: Run, i: nat, n: nat)
    requires r.Valid() && i < n < |r.states| && r.events[i] == Push
    requires forall j :: i < j < n ==> r.events[j] != Start
    ensures r.states[n].Pending()
  {
    assert Step(r.states[n - 1], r.events[n - 1], r.states[n]);
    if i + 1 < n {
      NoWakeUpIsLost(r, i, n - 1);
    }
  }

  function Count(r: Run, n: nat, e: Event): nat
    requires n <= |r.events|
  {
    if n == 0 then 0 else Count(r, n - 1, e) + if r.events[n - 1] == e then 1 else 0
  }

  /**
   No reconcile comes from nowhere: instance reconciles and tokens under way together never exceed
   the manager reconciles plus the reconciles that asked to run again. The channel never holds two.
   */
  lemma {:induction false} ReconcilesAreAccountedFor(r: Run, n: nat)
    requires r.Valid() && n <= |r.events|
    ensures Count(r, n, Start) + r.states[n].Tokens() <= Count(r, n, Push) + Count(r, n, Finish(true))
    ensures r.states[n].buffered <= CAPACITY
  {
    if n > 0 {
      ReconcilesAreAccountedFor(r, n - 1);
      assert Step(r.states[n - 1], r.events[n - 1], r.states[n]);
    }
  }

  /** How many stations lie between the token that is furthest along and the worker's next start. */
  function Distance(s: State): nat {
    (if s.queued then 0 else if s.carried > 0 then 1 else if s.buffered > 0 then 2 else 3) + (if s.working then 1 else 0)
  }

  /** The step moves the token that is furthest along, or makes room for it. */
  predicate Advances(s: State, e: Event) {
    match e
    case Take => !s.queued && s.carried == 0
    case Enqueue => !s.queued
    case Finish(_) => true
    case _ => false
  }

  /**
   While a token is pending, no step but a start takes it away or back: a push never raises the distance,
   and of the other steps exactly those that move the foremost token or free the worker lower it.
   */
  lemma DistanceNeverGrows(s: State, e: Event, s': State)
    requires s.Pending() && Step(s, e, s') && e != Start
    ensures s'.Pending() && Distance(s') <= Distance(s)
    ensures Distance(s') < Distance(s) <==> Advances(s, e)
  {
  }

  /** All the work before the source and the worker that is not a start. */
  function Work(s: State): nat { 2 * s.buffered + s.carried + if s.working then 1 else 0 }

  /**
   Whatever source and worker do and in whatever order: a pending token is followed by at most Work
   steps before, without any help of the manager, nothing is left to do but start an instance
   reconcile; and as long as none has started, some step is possible.
   */
  lemma {:induction false} EveryScheduleLeadsToStart(r: Run, i: nat, n: nat)
    requires r.Valid() && i <= n < |r.states| && r.states[i].Pending()
    requires forall j :: i <= j < n ==> r.events[j] != Start && r.events[j] != Push
    ensures r.states[n].Pending() && n - i + Work(r.states[n]) == Work(r.states[i])
    ensures Work(r.states[n]) == 0 ==> r.states[n].queued && !r.states[n].working
    ensures Work(r.states[n]) > 0 ==> CanProceed(r.states[n])
  {
    if i < n {
      EveryScheduleLeadsToStart(r, i, n - 1);
      assert Step(r.states[n - 1], r.events[n - 1], r.states[n]);
    }
    assert Work(r.states[n]) > 0 ==> CanProceed(r.states[n]) by {
      var s := r.states[n];
      if s.working { assert Step(s, Finish(false), s.(working := false)); }
      if s.carried > 0 { assert Step(s, Enqueue, s.(carried := s.carried - 1, queued := true)); }
      if s.buffered > 0 { assert Step(s, Take, s.(buffered := s.buffered - 1, carried := s.carried + 1)); }
    }
  }

  /** Source or worker can do something other than start. */
  ghost predicate CanProceed(s: State) { exists e, s' :: e != Start && e != Push && Step(s, e, s') }
}
