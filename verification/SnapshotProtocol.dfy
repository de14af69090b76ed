/**
The shared transaction snapshot (src/services/snapshot/service.py): many coroutines,
one store, one refresh task.

A step of the machine is what one coroutine runs between two suspensions. The
in-memory store never suspends, so a whole pass through the lock is one step; a
coroutine may still be suspended in front of the lock. Every interleaving of the
steps, and every failure or cancellation of a fetch or of a caller, is a run.
*/
module SnapshotProtocol {
  import opened Wrappers
  import opened Ledger
  import opened Metrics
  import opened Runs

  /** A fetch task and how it ended. */
  datatype Task = Fetching | Fetched(snapshot: Snapshot) | FetchFailed | FetchCancelled

  /** The service object with its store; `tasks` are all tasks it ever created. */
  datatype Service = Service(
    maxAge: nat, now: int, stored: Option<Snapshot>, refreshTask: Option<nat>, tasks: seq<Task>)

  /** Which of the two entry points a coroutine called. */
  datatype Mode = Cached | Forced

  /** What a pass through the lock tells the coroutine to do next. */
  datatype Reply = Give(snapshot: Snapshot) | Await(task: nat)

  datatype CallerId = Request(n: nat) | Recompute(manager: nat, run: nat)

  /** Where a calling coroutine is; `calledAt` is the clock reading when it called. */
  datatype Caller =
    | AtLock(mode: Mode, calledAt: int)
    | Waiting(mode: Mode, calledAt: int, task: nat)
    | Returned(mode: Mode, calledAt: int, snapshot: Snapshot)
    | Raised(mode: Mode, calledAt: int, cancelled: bool)

  datatype System = System(svc: Service, callers: map<CallerId, Caller>)

  // ----- the service's own segments -----

  predicate IsStale(svc: Service) {
    svc.stored.None? || svc.now - svc.stored.value.fetchedAt > svc.maxAge
  }

  function CachedTimestamp(svc: Service): Option<int> {
    if IsStale(svc) then None else Some(svc.stored.value.fetchedAt)
  }

  predicate Unfinished(svc: Service, t: nat) {
    t < |svc.tasks| && svc.tasks[t].Fetching?
  }

  /** The body of `async with self._refresh_lock`. */
  function PassLock(svc: Service, mode: Mode): (Service, Reply) {
    if mode.Cached? && !IsStale(svc) then
      (svc, Give(svc.stored.value))
    else if svc.refreshTask.Some? && Unfinished(svc, svc.refreshTask.value) then
      (svc, Await(svc.refreshTask.value))
    else
      (svc.(tasks := svc.tasks + [Fetching], refreshTask := Some(|svc.tasks|)), Await(|svc.tasks|))
  }

  /** The `finally` clause a waiter of task `t` runs, outside the lock. */
  function CleanUp(svc: Service, t: nat): Service {
    if !Unfinished(svc, t) && svc.refreshTask == Some(t) then svc.(refreshTask := None) else svc
  }

  /** The last segment of `_fetch_and_store_snapshot`: stamp, store, return. */
  function StoreFetched(svc: Service, t: nat, txs: seq<Transaction>, metrics: FetchMetrics): Service
    requires t < |svc.tasks|
  {
    var snapshot := Snapshot(txs, metrics, svc.now);
    svc.(stored := Some(snapshot), tasks := svc.tasks[t := Fetched(snapshot)])
  }

  // ----- steps and runs -----

  datatype Event =
    | Tick(elapsed: nat)
    | Call(c: CallerId, mode: Mode)
    | AcquireLock(c: CallerId)
    | FetchSucceeds(t: nat, txs: seq<Transaction>, metrics: FetchMetrics)
    | FetchFails(t: nat)
    | FetchIsCancelled(t: nat)   // also how a waiter's cancellation reaches the task it awaits
    | Resume(c: CallerId)        // a waiter continues after its task finished
    | CancelCaller(c: CallerId)  // a suspended caller receives CancelledError itself
    | Invalidate

  function EndTask(s: System, t: nat, how: Task): System {
    if Unfinished(s.svc, t) then s.(svc := s.svc.(tasks := s.svc.tasks[t := how])) else s
  }

  /** One step; an event that is not enabled leaves the system as it is. */
  function Step(s: System, e: Event): System {
    match e
    case Tick(elapsed) => s.(svc := s.svc.(now := s.svc.now + elapsed))
    case Call(c, mode) =>
      if c in s.callers then s
      else if mode.Cached? && !IsStale(s.svc) then
        s.(callers := s.callers[c := Returned(mode, s.svc.now, s.svc.stored.value)])
      else s.(callers := s.callers[c := AtLock(mode, s.svc.now)])
    case AcquireLock(c) =>
      if c in s.callers && s.callers[c].AtLock? then EnterLock(s, c) else s
    case FetchSucceeds(t, txs, metrics) =>
      if Unfinished(s.svc, t) then s.(svc := StoreFetched(s.svc, t, txs, metrics)) else s
    case FetchFails(t) => EndTask(s, t, FetchFailed)
    case FetchIsCancelled(t) => EndTask(s, t, FetchCancelled)
    case Resume(c) =>
      if c in s.callers && s.callers[c].Waiting? && s.callers[c].task < |s.svc.tasks| &&
         !Unfinished(s.svc, s.callers[c].task)
      then System(CleanUp(s.svc, s.callers[c].task),
                  s.callers[c := Outcome(s.callers[c], s.svc.tasks[s.callers[c].task])])
      else s
    case CancelCaller(c) =>
      if c in s.callers && s.callers[c].AtLock? then
        s.(callers := s.callers[c := Raised(s.callers[c].mode, s.callers[c].calledAt, true)])
      else if c in s.callers && s.callers[c].Waiting? then
        System(CleanUp(s.svc, s.callers[c].task),
               s.callers[c := Raised(s.callers[c].mode, s.callers[c].calledAt, true)])
      else s
    case Invalidate => s.(svc := s.svc.(stored := None))
  }

  function EnterLock(s: System, c: CallerId): System
    requires c in s.callers && s.callers[c].AtLock?
  {
    var caller := s.callers[c];
    var (svc, reply) := PassLock(s.svc, caller.mode);
    var next := match reply
      case Give(snapshot) => Returned(caller.mode, caller.calledAt, snapshot)
      case Await(t) => Waiting(caller.mode, caller.calledAt, t);
    System(svc, s.callers[c := next])
  }

  /** What `await task` gives the waiter. */
  function Outcome(caller: Caller, task: Task): Caller
    requires caller.Waiting? && !task.Fetching?
  {
    match task
    case Fetched(snapshot) => Returned(caller.mode, caller.calledAt, snapshot)
    case FetchFailed => Raised(caller.mode, caller.calledAt, false)
    case FetchCancelled => Raised(caller.mode, caller.calledAt, true)
  }

  function Init(maxAge: nat, now: int): System {
    System(Service(maxAge, now, None, None, []), map[])
  }

  // ----- the invariant -----

  ghost predicate AtMostOneFetch(svc: Service) {
    forall t: nat :: Unfinished(svc, t) ==> svc.refreshTask == Some(t)
  }

  ghost predicate IsResult(svc: Service, snapshot: Snapshot) {
    Fetched(snapshot) in svc.tasks
  }

  ghost predicate TimelyFetches(svc: Service) {
    && (forall t: nat | t < |svc.tasks| && svc.tasks[t].Fetched? :: svc.tasks[t].snapshot.fetchedAt <= svc.now)
    && (svc.stored.Some? ==> IsResult(svc, svc.stored.value))
    && (svc.stored.Some? ==> forall t: nat | t < |svc.tasks| && svc.tasks[t].Fetched? ::
          svc.tasks[t].snapshot.fetchedAt <= svc.stored.value.fetchedAt)
  }

  /** The oldest `fetchedAt` a call is allowed to see. */
  function Oldest(maxAge: nat, mode: Mode, calledAt: int): int {
    if mode.Forced? then calledAt else calledAt - maxAge
  }

  ghost predicate CallerOk(svc: Service, caller: Caller) {
    && caller.calledAt <= svc.now
    && (caller.Waiting? ==>
          && caller.task < |svc.tasks|
          && (svc.tasks[caller.task].Fetched? ==> caller.calledAt <= svc.tasks[caller.task].snapshot.fetchedAt))
    && (caller.Returned? ==>
          && IsResult(svc, caller.snapshot)
          && Oldest(svc.maxAge, caller.mode, caller.calledAt) <= caller.snapshot.fetchedAt)
  }

  ghost predicate ServiceOk(svc: Service) {
    && AtMostOneFetch(svc)
    && (svc.refreshTask.Some? ==> svc.refreshTask.value < |svc.tasks|)
    && TimelyFetches(svc)
  }

  ghost predicate Inv(s: System) {
    ServiceOk(s.svc) && forall c | c in s.callers :: CallerOk(s.svc, s.callers[c])
  }

  /** Between two service states of one run: time and the task table only move forward. */
  ghost predicate Later(old_: Service, new_: Service) {
    && old_.maxAge == new_.maxAge
    && old_.now <= new_.now
    && |old_.tasks| <= |new_.tasks|
    && forall t: nat | t < |old_.tasks| ::
         if old_.tasks[t].Fetching?
         then (new_.tasks[t].Fetched? ==> old_.now <= new_.tasks[t].snapshot.fetchedAt)
         else new_.tasks[t] == old_.tasks[t]
  }

  lemma CallersStayOk(old_: Service, new_: Service, caller: Caller)
    requires CallerOk(old_, caller) && Later(old_, new_)
    ensures CallerOk(new_, caller)
  {
    if caller.Returned? {
      var i :| 0 <= i < |old_.tasks| && old_.tasks[i] == Fetched(caller.snapshot);
      assert new_.tasks[i] == Fetched(caller.snapshot);
    }
  }

  lemma StepMovesForward(s: System, e: Event)
    requires Inv(s)
    ensures Later(s.svc, Step(s, e).svc)
  {
  }

  lemma StoredStaysAResult(svc: Service, svc': Service)
    requires svc.stored.Some? && IsResult(svc, svc.stored.value) && Later(svc, svc')
    ensures IsResult(svc', svc.stored.value)
  {
    var i :| 0 <= i < |svc.tasks| && svc.tasks[i] == Fetched(svc.stored.value);
    assert svc'.tasks[i] == Fetched(svc.stored.value);
  }

  lemma PassLockKeepsService(svc: Service, mode: Mode)
    requires ServiceOk(svc)
    ensures ServiceOk(PassLock(svc, mode).0)
  {
    var svc' := PassLock(svc, mode).0;
    if svc.stored.Some? {
      StoredStaysAResult(svc, svc');
    }
  }

  lemma FetchKeepsService(svc: Service, t: nat, txs: seq<Transaction>, metrics: FetchMetrics)
    requires ServiceOk(svc) && Unfinished(svc, t)
    ensures ServiceOk(StoreFetched(svc, t, txs, metrics))
  {
    var svc' := StoreFetched(svc, t, txs, metrics);
    assert svc'.tasks[t] == Fetched(svc'.stored.value);
  }

  lemma EndingKeepsService(s: System, t: nat, how: Task)
    requires ServiceOk(s.svc) && (how.FetchFailed? || how.FetchCancelled?)
    ensures ServiceOk(EndTask(s, t, how).svc)
  {
    if s.svc.stored.Some? {
      StoredStaysAResult(s.svc, EndTask(s, t, how).svc);
    }
  }

  lemma StepKeepsService(s: System, e: Event)
    requires ServiceOk(s.svc)
    ensures ServiceOk(Step(s, e).svc)
  {
    match e
    case AcquireLock(c) =>
      if c in s.callers && s.callers[c].AtLock? { PassLockKeepsService(s.svc, s.callers[c].mode); }
    case FetchSucceeds(t, txs, metrics) =>
      if Unfinished(s.svc, t) { FetchKeepsService(s.svc, t, txs, metrics); }
    case FetchFails(t) => EndingKeepsService(s, t, FetchFailed);
    case FetchIsCancelled(t) => EndingKeepsService(s, t, FetchCancelled);
    case _ =>
  }

  lemma StepKeepsCaller(s: System, e: Event, c: CallerId)
    requires Inv(s) && c in Step(s, e).callers
    ensures CallerOk(Step(s, e).svc, Step(s, e).callers[c])
  {
    StepMovesForward(s, e);
    if c in s.callers {
      CallersStayOk(s.svc, Step(s, e).svc, s.callers[c]);
    }
  }

  lemma StepKeepsInv(s: System, e: Event)
    requires Inv(s)
    ensures Inv(Step(s, e))
  {
    StepKeepsService(s, e);
    forall c | c in Step(s, e).callers ensures CallerOk(Step(s, e).svc, Step(s, e).callers[c]) {
      StepKeepsCaller(s, e, c);
    }
  }

  lemma {:induction false} RunKeepsInv(s: System, es: seq<Event>)
    requires Inv(s)
    ensures Inv(Run(Step, s, es))
    ensures Later(s.svc, Run(Step, s, es).svc)
    decreases |es|
  {
    if es == [] {
    } else {
      StepKeepsInv(s, es[0]);
      StepMovesForward(s, es[0]);
      RunKeepsInv(Step(s, es[0]), es[1..]);
    }
  }

  // ----- what every run guarantees -----

  /** Single flight: at most one fetch is unfinished, and it is the one `_refresh_task` points to. */
  lemma SingleFlight(maxAge: nat, now: int, es: seq<Event>, t: nat, u: nat)
    ensures var svc := Run(Step, Init(maxAge, now), es).svc;
            && (Unfinished(svc, t) ==> svc.refreshTask == Some(t))
            && (Unfinished(svc, t) && Unfinished(svc, u) ==> t == u)
  {
    RunKeepsInv(Init(maxAge, now), es);
  }

  /** A waiter that wakes up late, or is cancelled, never clears a pointer to another or to an unfinished task. */
  lemma LateWaiterClearsNothingNew(maxAge: nat, now: int, es: seq<Event>, c: CallerId, e: Event)
    requires e == Resume(c) || e == CancelCaller(c)
    ensures var s := Run(Step, Init(maxAge, now), es);
            var s' := Step(s, e);
            s'.svc.refreshTask != s.svc.refreshTask ==>
              && c in s.callers && s.callers[c].Waiting?
              && s.svc.refreshTask == Some(s.callers[c].task)
              && s'.svc.refreshTask == None
              && forall t: nat :: !Unfinished(s.svc, t)
  {
    RunKeepsInv(Init(maxAge, now), es);
  }

  /** Freshness: whoever gets a snapshot gets one no older than its entry point promises, and a genuine one. */
  lemma ReturnedSnapshotsAreFresh(maxAge: nat, now: int, es: seq<Event>, c: CallerId)
    requires c in Run(Step, Init(maxAge, now), es).callers
    requires Run(Step, Init(maxAge, now), es).callers[c].Returned?
    ensures var s := Run(Step, Init(maxAge, now), es);
            var r := s.callers[c];
            && IsResult(s.svc, r.snapshot)
            && (r.mode == Cached ==> r.calledAt - maxAge <= r.snapshot.fetchedAt)
            && (r.mode == Forced ==> r.calledAt <= r.snapshot.fetchedAt)
  {
    RunKeepsInv(Init(maxAge, now), es);
  }

  lemma StoredTimeNeverGoesBackStep(s: System, e: Event)
    requires Inv(s) && s.svc.stored.Some? && e != Invalidate
    ensures Step(s, e).svc.stored.Some?
    ensures s.svc.stored.value.fetchedAt <= Step(s, e).svc.stored.value.fetchedAt
  {
    var i :| 0 <= i < |s.svc.tasks| && s.svc.tasks[i] == Fetched(s.svc.stored.value);
  }

  lemma {:induction false} StoredTimeNeverGoesBackFrom(s: System, es: seq<Event>)
    requires Inv(s) && s.svc.stored.Some? && Invalidate !in es
    ensures Run(Step, s, es).svc.stored.Some?
    ensures s.svc.stored.value.fetchedAt <= Run(Step, s, es).svc.stored.value.fetchedAt
    decreases |es|
  {
    if es == [] {
    } else {
      StepKeepsInv(s, es[0]);
      assert es[0] in es;
      StoredTimeNeverGoesBackStep(s, es[0]);
      StoredTimeNeverGoesBackFrom(Step(s, es[0]), es[1..]);
    }
  }

  /** While nothing invalidates the store, a stored snapshot is only ever replaced by one at least as recent. */
  lemma StoredTimeNeverGoesBack(maxAge: nat, now: int, es: seq<Event>, more: seq<Event>)
    requires Run(Step, Init(maxAge, now), es).svc.stored.Some?
    requires Invalidate !in more
    ensures var before := Run(Step, Init(maxAge, now), es).svc.stored;
            var after := Run(Step, Init(maxAge, now), es + more).svc.stored;
            after.Some? && before.value.fetchedAt <= after.value.fetchedAt
  {
    RunKeepsInv(Init(maxAge, now), es);
    StoredTimeNeverGoesBackFrom(Run(Step, Init(maxAge, now), es), more);
    RunConcat(Step, Init(maxAge, now), es, more);
  }

  ghost predicate StoreFollowsFetches(svc: Service) {
    svc.stored.None? ==> forall t: nat | t < |svc.tasks| :: !svc.tasks[t].Fetched?
  }

  lemma {:induction false} StoreFollowsFetchesFrom(s: System, es: seq<Event>)
    requires Inv(s) && StoreFollowsFetches(s.svc) && Invalidate !in es
    ensures StoreFollowsFetches(Run(Step, s, es).svc)
    decreases |es|
  {
    if es == [] {
    } else {
      StepKeepsInv(s, es[0]);
      assert es[0] in es;
      StoreFollowsFetchesFrom(Step(s, es[0]), es[1..]);
    }
  }

  /** The store holds the most recent successful fetch, whatever failed or was cancelled in between. */
  lemma StoreHoldsNewestFetch(maxAge: nat, now: int, es: seq<Event>, t: nat)
    requires t < |Run(Step, Init(maxAge, now), es).svc.tasks|
    requires Run(Step, Init(maxAge, now), es).svc.tasks[t].Fetched?
    ensures var svc := Run(Step, Init(maxAge, now), es).svc;
            && (svc.stored.Some? ==> svc.tasks[t].snapshot.fetchedAt <= svc.stored.value.fetchedAt
                                     && IsResult(svc, svc.stored.value))
            && (Invalidate !in es ==> svc.stored.Some?)
  {
    RunKeepsInv(Init(maxAge, now), es);
    if Invalidate !in es {
      StoreFollowsFetchesFrom(Init(maxAge, now), es);
    }
  }

  /** A caller that waits for task `t`, or was given what became of it. */
  predicate Follows(s: System, c: CallerId, t: nat) {
    && c in s.callers && t < |s.svc.tasks|
    && match s.callers[c]
       case AtLock(_, _) => false
       case Waiting(_, _, task) => task == t
       case Returned(_, _, snapshot) => s.svc.tasks[t] == Fetched(snapshot)
       case Raised(_, _, _) => true
  }

  lemma FollowsOneStep(s: System, e: Event, c: CallerId, t: nat)
    requires Inv(s) && Follows(s, c, t)
    ensures Follows(Step(s, e), c, t)
    ensures Step(s, e).callers[c].mode == s.callers[c].mode && Step(s, e).callers[c].calledAt == s.callers[c].calledAt
  {
    StepMovesForward(s, e);
  }

  /** A waiter gets the answer of the task it waits for and of no other, whatever happens meanwhile. */
  lemma {:induction false} WaitersFollowTheirTask(s: System, es: seq<Event>, c: CallerId, t: nat)
    requires Inv(s) && Follows(s, c, t)
    ensures Follows(Run(Step, s, es), c, t)
    ensures var s' := Run(Step, s, es);
            s'.callers[c].mode == s.callers[c].mode && s'.callers[c].calledAt == s.callers[c].calledAt
    decreases |es|
  {
    if es == [] {
    } else {
      StepKeepsInv(s, es[0]);
      FollowsOneStep(s, es[0], c, t);
      WaitersFollowTheirTask(Step(s, es[0]), es[1..], c, t);
    }
  }

  /**
   A failed or cancelled fetch leaves the store alone and frees the way for the next fetch, but it reaches every
   waiter: whoever waits for it raises when it continues, with CancelledError if the fetch was cancelled.
   */
  lemma FailedFetchReachesItsWaiters(
    maxAge: nat, now: int, es: seq<Event>, t: nat, e: Event, mode: Mode, c: CallerId)
    requires e == FetchFails(t) || e == FetchIsCancelled(t)
    requires Unfinished(Run(Step, Init(maxAge, now), es).svc, t)
    ensures var s := Run(Step, Init(maxAge, now), es);
            var s' := Step(s, e);
            && s'.svc.stored == s.svc.stored
            && (mode == Forced || IsStale(s'.svc) ==> PassLock(s'.svc, mode).1 == Await(|s.svc.tasks|))
            && (c in s.callers && s.callers[c].Waiting? && s.callers[c].task == t ==>
                  c in Step(s', Resume(c)).callers &&
                  Step(s', Resume(c)).callers[c] ==
                  Raised(s.callers[c].mode, s.callers[c].calledAt, e.FetchIsCancelled?))
  {
    RunKeepsInv(Init(maxAge, now), es);
  }

  /** No continuation of the run gives a snapshot to a waiter of a failed or cancelled fetch. */
  lemma NoWaiterSurvivesItsFetch(
    maxAge: nat, now: int, es: seq<Event>, t: nat, e: Event, more: seq<Event>, c: CallerId)
    requires e == FetchFails(t) || e == FetchIsCancelled(t)
    requires var s := Run(Step, Init(maxAge, now), es);
             Unfinished(s.svc, t) && c in s.callers && s.callers[c].Waiting? && s.callers[c].task == t
    ensures var s' := Run(Step, Step(Run(Step, Init(maxAge, now), es), e), more);
            c in s'.callers && (s'.callers[c].Waiting? || s'.callers[c].Raised?)
  {
    RunKeepsInv(Init(maxAge, now), es);
    var s := Step(Run(Step, Init(maxAge, now), es), e);
    StepKeepsInv(Run(Step, Init(maxAge, now), es), e);
    RunKeepsInv(s, more);
    WaitersFollowTheirTask(s, more, c, t);
  }

  /** Callers that arrive while a fetch is under way all wait for that one fetch. */
  lemma JoinersShareTheFetch(maxAge: nat, now: int, es: seq<Event>, t: nat, mode: Mode)
    requires Unfinished(Run(Step, Init(maxAge, now), es).svc, t)
    ensures var svc := Run(Step, Init(maxAge, now), es).svc;
            PassLock(svc, mode) ==
            if mode == Cached && !IsStale(svc) then (svc, Give(svc.stored.value)) else (svc, Await(t))
  {
    RunKeepsInv(Init(maxAge, now), es);
  }

  /** A forced pass through the lock starts a fetch of its own exactly when none is under way. */
  lemma ForcedPassStartsAFetchIff(maxAge: nat, now: int, es: seq<Event>)
    ensures var svc := Run(Step, Init(maxAge, now), es).svc;
            PassLock(svc, Forced).1 == Await(|svc.tasks|) <==> forall t: nat :: !Unfinished(svc, t)
  {
    RunKeepsInv(Init(maxAge, now), es);
  }

  /** Something is stored, no older than the maximum age. */
  predicate HoldsFresh(svc: Service, maxAge: nat) {
    svc.stored.Some? && svc.now <= svc.stored.value.fetchedAt + maxAge
  }

  /**
  Every pass through the lock, in every run: it gives the stored snapshot exactly when that is fresh and not forced
  away, waits for the fetch under way if there is one, and otherwise starts one fetch.
  */
  lemma WhatAPassDoes(maxAge: nat, now: int, es: seq<Event>, mode: Mode)
    ensures var svc := Run(Step, Init(maxAge, now), es).svc;
            var (svc', reply) := PassLock(svc, mode);
            && svc' == svc.(tasks := svc'.tasks, refreshTask := svc'.refreshTask)
            && (reply.Give? <==> mode == Cached && HoldsFresh(svc, maxAge))
            && (reply.Give? ==> svc' == svc && Some(reply.snapshot) == svc.stored)
            && (reply.Await? && Unfinished(svc, reply.task) ==> svc' == svc)
            && (reply.Await? && !Unfinished(svc, reply.task) ==>
                  && (forall t: nat :: !Unfinished(svc, t))
                  && reply.task == |svc.tasks| && svc'.tasks == svc.tasks + [Fetching])
  {
    RunKeepsInv(Init(maxAge, now), es);
  }

  /** A cached request is answered on the spot, with the stored snapshot, exactly when that is fresh. */
  lemma FreshStoreAnswersAtOnce(maxAge: nat, now: int, es: seq<Event>, c: CallerId)
    requires c !in Run(Step, Init(maxAge, now), es).callers
    ensures var s := Run(Step, Init(maxAge, now), es);
            var s' := Step(s, Call(c, Cached));
            && s'.svc == s.svc && c in s'.callers
            && s'.callers[c] == if HoldsFresh(s.svc, maxAge) then Returned(Cached, s.svc.now, s.svc.stored.value)
                                else AtLock(Cached, s.svc.now)
  {
    RunKeepsInv(Init(maxAge, now), es);
  }

  /** A waiter that continues after its task ended leaves no pointer to that task behind. */
  lemma WaitersClearTheirTask(maxAge: nat, now: int, es: seq<Event>, c: CallerId)
    requires var s := Run(Step, Init(maxAge, now), es);
             c in s.callers && s.callers[c].Waiting? && !Unfinished(s.svc, s.callers[c].task)
    ensures var s := Run(Step, Init(maxAge, now), es);
            var s' := Step(s, Resume(c));
            && s'.svc.refreshTask != Some(s.callers[c].task)
            && c in s'.callers && !s'.callers[c].Waiting?
  {
    RunKeepsInv(Init(maxAge, now), es);
  }

  /** A caller in front of the lock is still there as it came, or has moved on. */
  lemma {:induction false} StillAtTheLock(s: System, es: seq<Event>, c: CallerId)
    requires c in s.callers
    ensures var s' := Run(Step, s, es);
            c in s'.callers && (s'.callers[c].AtLock? ==> s'.callers[c] == s.callers[c])
    decreases |es|
  {
    if es == [] {
    } else {
      assert c in Step(s, es[0]).callers;
      StillAtTheLock(Step(s, es[0]), es[1..], c);
      if Step(s, es[0]).callers[c].AtLock? {
        assert Step(s, es[0]).callers[c] == s.callers[c];
      } else {
        NeverBackAtTheLock(Step(s, es[0]), es[1..], c);
      }
    }
  }

  lemma {:induction false} NeverBackAtTheLock(s: System, es: seq<Event>, c: CallerId)
    requires c in s.callers && !s.callers[c].AtLock?
    ensures c in Run(Step, s, es).callers && !Run(Step, s, es).callers[c].AtLock?
    decreases |es|
  {
    if es == [] {
    } else {
      NeverBackAtTheLock(Step(s, es[0]), es[1..], c);
    }
  }

  /** The states of a forced request: when it is called, when it gets the lock, and after. */
  function CalledIn(maxAge: nat, now: int, before: seq<Event>): System {
    Run(Step, Init(maxAge, now), before)
  }

  function LockedIn(maxAge: nat, now: int, before: seq<Event>, c: CallerId, between: seq<Event>): System {
    Run(Step, Step(CalledIn(maxAge, now, before), Call(c, Forced)), between)
  }

  /**
   Which fetch a forced refresh answers with, in every run: it waits for one task from the moment it gets the lock,
   returns that task's snapshot or nothing, and that task was requested before the call exactly when a fetch that
   was already under way at the call is still under way when the lock is free.
   */
  lemma ForcedRefreshJoinsAnOlderRequestIff(
    maxAge: nat, now: int, before: seq<Event>, c: CallerId, between: seq<Event>, after: seq<Event>) returns (t: nat)
    requires c !in CalledIn(maxAge, now, before).callers
    requires c in LockedIn(maxAge, now, before, c, between).callers
    requires LockedIn(maxAge, now, before, c, between).callers[c].AtLock?
    ensures var called, locked := CalledIn(maxAge, now, before), LockedIn(maxAge, now, before, c, between);
            var end := Run(Step, Step(locked, AcquireLock(c)), after);
            && c in end.callers && t < |end.svc.tasks|
            && (end.callers[c].Returned? ==> end.svc.tasks[t] == Fetched(end.callers[c].snapshot))
            && (end.callers[c].Waiting? ==> end.callers[c].task == t)
            && !end.callers[c].AtLock?
            && end.callers[c].mode == Forced && end.callers[c].calledAt == called.svc.now
            && (t < |called.svc.tasks| <==> exists u: nat | u < |called.svc.tasks| :: Unfinished(locked.svc, u))
  {
    var called, locked := CalledIn(maxAge, now, before), LockedIn(maxAge, now, before, c, between);
    RunKeepsInv(Init(maxAge, now), before);
    StepKeepsInv(called, Call(c, Forced));
    StepMovesForward(called, Call(c, Forced));
    RunKeepsInv(Step(called, Call(c, Forced)), between);
    StillAtTheLock(Step(called, Call(c, Forced)), between, c);
    StepKeepsInv(locked, AcquireLock(c));
    var joined := Step(locked, AcquireLock(c));
    t := joined.callers[c].task;
    RunKeepsInv(joined, after);
    WaitersFollowTheirTask(joined, after, c, t);
  }

  /**
  Being stamped after the call does not mean having been requested after it: a forced
  refresh that joins a fetch already under way receives that fetch's answer.
  */
  lemma ForcedRefreshMayJoinAnOlderRequest(txs: seq<Transaction>, metrics: FetchMetrics)
    ensures var first, second := Request(1), Request(2);
            var s := Run(Step, Init(300, 0),
                         [Call(first, Cached), AcquireLock(first), Tick(10), Call(second, Forced)] +
                         [AcquireLock(second), Tick(1), FetchSucceeds(0, txs, metrics), Resume(second)]);
            && |s.svc.tasks| == 1
            && second in s.callers
            && s.callers[second] == Returned(Forced, 10, Snapshot(txs, metrics, 11))
  {
    var first, second := Request(1), Request(2);
    var before := [Call(first, Cached), AcquireLock(first), Tick(10), Call(second, Forced)];
    var after := [AcquireLock(second), Tick(1), FetchSucceeds(0, txs, metrics), Resume(second)];
    RunConcat(Step, Init(300, 0), before, after);
    RunFour(Step, Init(300, 0), Call(first, Cached), AcquireLock(first), Tick(10), Call(second, Forced));
    SecondCallerJoins(Run(Step, Init(300, 0), before), txs, metrics);
  }

  lemma SecondCallerJoins(s: System, txs: seq<Transaction>, metrics: FetchMetrics)
    requires s.svc == Service(300, 10, None, Some(0), [Fetching])
    requires Request(2) in s.callers && s.callers[Request(2)] == AtLock(Forced, 10)
    ensures var after := [AcquireLock(Request(2)), Tick(1), FetchSucceeds(0, txs, metrics), Resume(Request(2))];
            var s' := Run(Step, s, after);
            && |s'.svc.tasks| == 1
            && Request(2) in s'.callers
            && s'.callers[Request(2)] == Returned(Forced, 10, Snapshot(txs, metrics, 11))
  {
    RunFour(Step, s, AcquireLock(Request(2)), Tick(1), FetchSucceeds(0, txs, metrics), Resume(Request(2)));
  }
}
