/**
The metrics managers (src/services/tx_stats/manager.py and its Allegro and BLIK
twins) with the recompute job they start (src/services/tx_stats/runner.py), all
sharing one snapshot service.

A world holds any number of managers. Its steps interleave the managers' own steps
with every step of SnapshotProtocol: requests of others, failing fetches, clock
ticks and cancellations.
*/
module MetricsManagers {
  import opened Wrappers
  import opened Ledger
  import opened Metrics
  import opened Runs
  import P = SnapshotProtocol

  datatype Status = Pending | Running | Done | Failed

  /** A recompute task, from creation to its end. */
  datatype Job = Queued(force: bool) | Calling | Building(snapshot: Snapshot) | Ended(cancelled: bool)

  /** A manager: its state record, `_task`, every task it created and the done-callbacks still to run. */
  datatype Manager = Manager(
    status: Status,
    result: Option<Statistics>,
    error: Option<string>,
    progress: Option<string>,
    lastUpdatedAt: Option<int>,
    task: Option<nat>,
    jobs: seq<Job>,
    callbacks: set<nat>)

  // ----- the manager's own segments -----

  predicate JobUnfinished(m: Manager, i: nat) {
    i < |m.jobs| && !m.jobs[i].Ended?
  }

  /** The body of `_start` under the manager's lock. */
  function StartJob(m: Manager, force: bool): Manager {
    if m.status == Running then m
    else if m.task.Some? && JobUnfinished(m, m.task.value) then m
    else m.(status := Running, progress := Some("queued"), error := None, result := None,
            jobs := m.jobs + [Queued(force)], task := Some(|m.jobs|))
  }

  /** `ensure_current` answers without starting anything. */
  predicate AnswersAtOnce(m: Manager, cached: Option<int>) {
    m.status == Running || EarlyReturn(m, cached)
  }

  /** The DONE early return: the held result carries the timestamp of the cached snapshot. */
  predicate EarlyReturn(m: Manager, cached: Option<int>) {
    m.status == Done && m.result.Some? && cached.Some? && m.result.value.timeStamp == cached.value
  }

  function EnsureCurrent(m: Manager, cached: Option<int>): Manager {
    if AnswersAtOnce(m, cached) then m else StartJob(m, false)
  }

  function BeginJob(m: Manager, i: nat): Manager
    requires i < |m.jobs|
  {
    m.(status := Running, progress := Some("fetching"), error := None, result := None, jobs := m.jobs[i := Calling])
  }

  function EndJob(m: Manager, i: nat, cancelled: bool): Manager
    requires i < |m.jobs|
  {
    m.(jobs := m.jobs[i := Ended(cancelled)], callbacks := m.callbacks + {i})
  }

  function FinishJob(m: Manager, i: nat, result: Statistics, now: int): Manager
    requires i < |m.jobs|
  {
    EndJob(m.(result := Some(result), status := Done, lastUpdatedAt := Some(now), progress := None), i, false)
  }

  function FailJob(m: Manager, i: nat, message: string): Manager
    requires i < |m.jobs|
  {
    EndJob(m.(status := Failed, error := Some(message), progress := None, result := None), i, false)
  }

  /** `_on_task_done`. */
  function OnTaskDone(m: Manager, i: nat): Manager {
    m.(callbacks := m.callbacks - {i}, task := if m.task == Some(i) then None else m.task)
  }

  function NewManager(): Manager {
    Manager(Pending, None, None, None, None, None, [], {})
  }

  // ----- steps and runs -----

  datatype World = World(sys: P.System, kinds: seq<Kind>, managers: seq<Manager>)

  datatype Event =
    | Snap(e: P.Event)
    | Ensure(m: nat)
    | Refresh(m: nat)
    | Begin(m: nat, i: nat)
    | GotSnapshot(m: nat, i: nat)
    | CallFailed(m: nat, i: nat, message: string)
    | Built(m: nat, i: nat)
    | BuildFailed(m: nat, i: nat, message: string)
    | CancelJob(m: nat, i: nat)
    | JobCallback(m: nat, i: nat)

  predicate HasJob(w: World, m: nat, i: nat) {
    m < |w.managers| && i < |w.managers[m].jobs|
  }

  /** The coroutine of job `i` of manager `m`, if it is inside the snapshot service. */
  predicate CallIs(w: World, m: nat, i: nat, returned: bool) {
    && HasJob(w, m, i) && w.managers[m].jobs[i].Calling?
    && P.Recompute(m, i) in w.sys.callers
    && (if returned then w.sys.callers[P.Recompute(m, i)].Returned? else w.sys.callers[P.Recompute(m, i)].Raised?)
  }

  /** The record of the manager an event concerns, after the event. */
  function NextManager(w: World, e: Event): Manager
    requires !e.Snap? && e.m < |w.managers| && e.m < |w.kinds|
  {
    var m := w.managers[e.m];
    match e
    case Ensure(_) => EnsureCurrent(m, P.CachedTimestamp(w.sys.svc))
    case Refresh(_) => StartJob(m, true)
    case Begin(_, i) => if i < |m.jobs| && m.jobs[i].Queued? then BeginJob(m, i) else m
    case GotSnapshot(k, i) =>
      if CallIs(w, k, i, true) then m.(jobs := m.jobs[i := Building(w.sys.callers[P.Recompute(k, i)].snapshot)]) else m
    case CallFailed(k, i, message) =>
      if !CallIs(w, k, i, false) then m
      else if w.sys.callers[P.Recompute(k, i)].cancelled then EndJob(m, i, true)
      else FailJob(m, i, message)
    case Built(k, i) =>
      if i < |m.jobs| && m.jobs[i].Building?
      then FinishJob(m, i, Build(w.kinds[k], m.jobs[i].snapshot), w.sys.svc.now) else m
    case BuildFailed(_, i, message) => if i < |m.jobs| && m.jobs[i].Building? then FailJob(m, i, message) else m
    case CancelJob(_, i) =>
      if i < |m.jobs| && (m.jobs[i].Queued? || m.jobs[i].Building?) then EndJob(m, i, true) else m
    case JobCallback(_, i) => if i in m.callbacks then OnTaskDone(m, i) else m
  }

  /** Beginning a job ends with its call into the snapshot service; no other manager event reaches it. */
  function NextSystem(w: World, e: Event): P.System
    requires !e.Snap?
  {
    if e.Begin? && HasJob(w, e.m, e.i) && w.managers[e.m].jobs[e.i].Queued? then
      P.Step(w.sys, P.Call(P.Recompute(e.m, e.i), if w.managers[e.m].jobs[e.i].force then P.Forced else P.Cached))
    else w.sys
  }

  /** One step; an event that is not enabled leaves the world as it is. */
  function Step(w: World, e: Event): World {
    if e.Snap? then
      if e.e.Call? && e.e.c.Recompute? then w else w.(sys := P.Step(w.sys, e.e))
    else if e.m < |w.managers| && e.m < |w.kinds| then
      World(NextSystem(w, e), w.kinds, w.managers[e.m := NextManager(w, e)])
    else w
  }

  function Init(maxAge: nat, now: int, kinds: seq<Kind>): World {
    World(P.Init(maxAge, now), kinds, seq(|kinds|, _ => NewManager()))
  }

  // ----- the invariant -----

  /** The last recompute task ended by cancellation, which `except Exception` does not catch. */
  predicate Wedged(m: Manager) {
    m.jobs != [] && m.jobs[|m.jobs| - 1] == Ended(true)
  }

  ghost predicate ManagerOk(m: Manager) {
    var n := |m.jobs|;
    && (forall i | 0 <= i < n - 1 :: m.jobs[i].Ended?)
    && (m.task.Some? ==> m.task.value == n - 1 && (JobUnfinished(m, n - 1) || n - 1 in m.callbacks))
    && (m.progress.Some? <==> m.status == Running)
    && (forall i | i in m.callbacks :: i < n && m.jobs[i].Ended?)
    && (n == 0 ==> m.status == Pending && m.result.None? && m.error.None?)
    && (n > 0 && !m.jobs[n - 1].Ended? ==>
          m.status == Running && m.result.None? && m.error.None? && m.task == Some(n - 1))
    && (n > 0 && m.jobs[n - 1] == Ended(true) ==> m.status == Running && m.result.None? && m.error.None?)
    && (n > 0 && m.jobs[n - 1] == Ended(false) ==>
          || (m.status == Done && m.result.Some? && m.error.None?)
          || (m.status == Failed && m.result.None? && m.error.Some?))
  }

  ghost predicate BuiltFromAFetch(svc: P.Service, kind: Kind, result: Statistics) {
    exists t: nat | t < |svc.tasks| :: svc.tasks[t].Fetched? && result == Build(kind, svc.tasks[t].snapshot)
  }

  ghost predicate Provenance(svc: P.Service, kind: Kind, m: Manager) {
    && (forall i | 0 <= i < |m.jobs| && m.jobs[i].Building? :: P.IsResult(svc, m.jobs[i].snapshot))
    && (m.result.Some? ==>
          && BuiltFromAFetch(svc, kind, m.result.value)
          && m.lastUpdatedAt.Some? && m.result.value.timeStamp <= m.lastUpdatedAt.value <= svc.now)
  }

  ghost predicate CallersKnown(w: World) {
    forall c | c in w.sys.callers && c.Recompute? ::
      HasJob(w, c.manager, c.run) && !w.managers[c.manager].jobs[c.run].Queued?
  }

  ghost predicate Inv(w: World) {
    && P.Inv(w.sys)
    && |w.kinds| == |w.managers|
    && (forall m | 0 <= m < |w.managers| ::
          ManagerOk(w.managers[m]) && Provenance(w.sys.svc, w.kinds[m], w.managers[m]))
    && CallersKnown(w)
  }

  lemma ResultsStay(old_: P.Service, new_: P.Service, snapshot: Snapshot)
    requires P.Later(old_, new_) && P.IsResult(old_, snapshot)
    ensures P.IsResult(new_, snapshot)
  {
    var t :| 0 <= t < |old_.tasks| && old_.tasks[t] == P.Fetched(snapshot);
    assert new_.tasks[t] == P.Fetched(snapshot);
  }

  lemma ProvenanceStays(old_: P.Service, new_: P.Service, kind: Kind, m: Manager)
    requires P.Later(old_, new_) && Provenance(old_, kind, m)
    ensures Provenance(new_, kind, m)
  {
    forall i | 0 <= i < |m.jobs| && m.jobs[i].Building? ensures P.IsResult(new_, m.jobs[i].snapshot) {
      ResultsStay(old_, new_, m.jobs[i].snapshot);
    }
    if m.result.Some? {
      var t: nat :| t < |old_.tasks| && old_.tasks[t].Fetched? && m.result.value == Build(kind, old_.tasks[t].snapshot);
      assert new_.tasks[t] == old_.tasks[t];
    }
  }

  /** A step of the snapshot service on its own leaves every manager as it was. */
  lemma SnapshotStepKeepsInv(w: World, e: P.Event)
    requires Inv(w) && !(e.Call? && e.c.Recompute?)
    ensures Inv(w.(sys := P.Step(w.sys, e)))
  {
    P.StepKeepsInv(w.sys, e);
    P.StepMovesForward(w.sys, e);
    var w' := w.(sys := P.Step(w.sys, e));
    forall m | 0 <= m < |w'.managers| ensures Provenance(w'.sys.svc, w'.kinds[m], w'.managers[m]) {
      ProvenanceStays(w.sys.svc, w'.sys.svc, w.kinds[m], w.managers[m]);
    }
  }

  lemma StartingKeepsOk(m: Manager, cached: Option<int>, force: bool)
    requires ManagerOk(m)
    ensures ManagerOk(StartJob(m, force)) && ManagerOk(EnsureCurrent(m, cached))
  {
  }

  lemma EndingKeepsOk(m: Manager, i: nat, message: string)
    requires ManagerOk(m) && i < |m.jobs| && !m.jobs[i].Ended?
    ensures ManagerOk(EndJob(m, i, true)) && ManagerOk(FailJob(m, i, message))
  {
    assert i == |m.jobs| - 1;
  }

  lemma FinishingKeepsOk(m: Manager, i: nat, built: Statistics, now: int)
    requires ManagerOk(m) && i < |m.jobs| && !m.jobs[i].Ended?
    ensures ManagerOk(FinishJob(m, i, built, now))
  {
    assert i == |m.jobs| - 1;
  }

  lemma MovingOnKeepsOk(m: Manager, i: nat, snapshot: Snapshot)
    requires ManagerOk(m)
    ensures i < |m.jobs| && m.jobs[i].Queued? ==> ManagerOk(BeginJob(m, i))
    ensures i < |m.jobs| && m.jobs[i].Calling? ==> ManagerOk(m.(jobs := m.jobs[i := Building(snapshot)]))
    ensures i in m.callbacks ==> ManagerOk(OnTaskDone(m, i))
  {
  }

  lemma NextManagerIsOk(w: World, e: Event)
    requires !e.Snap? && e.m < |w.managers| && e.m < |w.kinds| && ManagerOk(w.managers[e.m])
    ensures ManagerOk(NextManager(w, e))
  {
    var m := w.managers[e.m];
    match e
    case Ensure(_) => StartingKeepsOk(m, P.CachedTimestamp(w.sys.svc), false);
    case Refresh(_) => StartingKeepsOk(m, None, true);
    case CallFailed(_, i, message) =>
      if CallIs(w, e.m, i, false) { EndingKeepsOk(m, i, message); }
    case Built(_, i) =>
      if i < |m.jobs| && m.jobs[i].Building? {
        FinishingKeepsOk(m, i, Build(w.kinds[e.m], m.jobs[i].snapshot), w.sys.svc.now);
      }
    case BuildFailed(_, i, message) =>
      if i < |m.jobs| && m.jobs[i].Building? { EndingKeepsOk(m, i, message); }
    case CancelJob(_, i) =>
      if i < |m.jobs| && !m.jobs[i].Ended? { EndingKeepsOk(m, i, ""); }
    case GotSnapshot(k, i) =>
      if CallIs(w, k, i, true) { MovingOnKeepsOk(m, i, w.sys.callers[P.Recompute(k, i)].snapshot); }
    case Begin(_, i) => MovingOnKeepsOk(m, i, Snapshot([], FetchMetrics(0, 0), 0));
    case JobCallback(_, i) => MovingOnKeepsOk(m, i, Snapshot([], FetchMetrics(0, 0), 0));
  }

  /** Jobs are never forgotten and never go back to the queue. */
  lemma NextManagerMovesForward(w: World, e: Event)
    requires Inv(w) && !e.Snap? && e.m < |w.managers|
    ensures |w.managers[e.m].jobs| <= |NextManager(w, e).jobs|
    ensures forall i | 0 <= i < |w.managers[e.m].jobs| && NextManager(w, e).jobs[i].Queued? ::
              w.managers[e.m].jobs[i].Queued?
    ensures e.Begin? && e.i < |w.managers[e.m].jobs| ==> !NextManager(w, e).jobs[e.i].Queued?
  {
  }

  lemma NextManagerProvenance(w: World, e: Event)
    requires Inv(w) && !e.Snap? && e.m < |w.managers|
    ensures Provenance(w.sys.svc, w.kinds[e.m], NextManager(w, e))
  {
    var svc, m, m' := w.sys.svc, w.managers[e.m], NextManager(w, e);
    assert Provenance(svc, w.kinds[e.m], m);
    if e.GotSnapshot? && CallIs(w, e.m, e.i, true) {
      assert P.CallerOk(svc, w.sys.callers[P.Recompute(e.m, e.i)]);
    } else if e.Built? && e.i < |m.jobs| && m.jobs[e.i].Building? {
      var t :| 0 <= t < |svc.tasks| && svc.tasks[t] == P.Fetched(m.jobs[e.i].snapshot);
      assert svc.tasks[t].Fetched?;
      assert BuiltFromAFetch(svc, w.kinds[e.m], m'.result.value);
      BuildIsStamped(w.kinds[e.m], m.jobs[e.i].snapshot);
    }
  }

  lemma NextSystemIsLater(w: World, e: Event)
    requires Inv(w) && !e.Snap?
    ensures P.Inv(NextSystem(w, e)) && P.Later(w.sys.svc, NextSystem(w, e).svc)
    ensures forall c | c in NextSystem(w, e).callers ::
              c in w.sys.callers || (e.Begin? && c == P.Recompute(e.m, e.i) && HasJob(w, e.m, e.i))
  {
    if NextSystem(w, e) != w.sys {
      var call := P.Call(P.Recompute(e.m, e.i), if w.managers[e.m].jobs[e.i].force then P.Forced else P.Cached);
      P.StepKeepsInv(w.sys, call);
      P.StepMovesForward(w.sys, call);
    }
  }

  lemma ManagerStepKeepsManagers(w: World, e: Event, k: nat)
    requires Inv(w) && !e.Snap? && e.m < |w.managers| && k < |w.managers|
    ensures ManagerOk(Step(w, e).managers[k]) && Provenance(Step(w, e).sys.svc, w.kinds[k], Step(w, e).managers[k])
  {
    NextManagerIsOk(w, e);
    NextManagerProvenance(w, e);
    NextSystemIsLater(w, e);
    ProvenanceStays(w.sys.svc, NextSystem(w, e).svc, w.kinds[k], Step(w, e).managers[k]);
  }

  lemma ManagerStepKeepsCallersKnown(w: World, e: Event)
    requires Inv(w) && !e.Snap? && e.m < |w.managers|
    ensures CallersKnown(Step(w, e))
  {
    var w' := Step(w, e);
    NextManagerMovesForward(w, e);
    NextSystemIsLater(w, e);
    forall c | c in w'.sys.callers && c.Recompute?
      ensures HasJob(w', c.manager, c.run) && !w'.managers[c.manager].jobs[c.run].Queued?
    {
      if c in w.sys.callers {
        assert HasJob(w, c.manager, c.run) && !w.managers[c.manager].jobs[c.run].Queued?;
      }
    }
  }

  lemma ManagerStepKeepsInv(w: World, e: Event)
    requires Inv(w) && !e.Snap? && e.m < |w.managers|
    ensures Inv(Step(w, e))
  {
    NextSystemIsLater(w, e);
    ManagerStepKeepsCallersKnown(w, e);
    forall k | 0 <= k < |w.managers|
      ensures ManagerOk(Step(w, e).managers[k]) && Provenance(Step(w, e).sys.svc, w.kinds[k], Step(w, e).managers[k])
    {
      ManagerStepKeepsManagers(w, e, k);
    }
  }

  lemma StepKeepsInv(w: World, e: Event)
    requires Inv(w)
    ensures Inv(Step(w, e))
  {
    if e.Snap? {
      if !(e.e.Call? && e.e.c.Recompute?) {
        SnapshotStepKeepsInv(w, e.e);
      }
    } else if e.m < |w.managers| {
      ManagerStepKeepsInv(w, e);
    }
  }

  lemma {:induction false} RunKeepsInv(w: World, es: seq<Event>)
    requires Inv(w)
    ensures Inv(Run(Step, w, es))
    decreases |es|
  {
    if es == [] {
    } else {
      StepKeepsInv(w, es[0]);
      RunKeepsInv(Step(w, es[0]), es[1..]);
    }
  }

  // ----- what every run guarantees -----

  lemma ManagerIsOkInRun(maxAge: nat, now: int, kinds: seq<Kind>, es: seq<Event>, k: nat)
    requires k < |Run(Step, Init(maxAge, now, kinds), es).managers|
    ensures ManagerOk(Run(Step, Init(maxAge, now, kinds), es).managers[k])
  {
    RunKeepsInv(Init(maxAge, now, kinds), es);
  }

  lemma OkIsCoherent(m: Manager)
    requires ManagerOk(m)
    ensures forall i: nat, j: nat :: JobUnfinished(m, i) && JobUnfinished(m, j) ==> i == j
    ensures forall i: nat :: JobUnfinished(m, i) ==> m.task == Some(i)
    ensures m.task.Some? ==> JobUnfinished(m, m.task.value) || m.task.value in m.callbacks
    ensures m.status == Pending <==> m.jobs == []
    ensures m.status == Done <==> m.result.Some?
    ensures m.status == Failed <==> m.error.Some?
    ensures m.status == Running <==> m.progress.Some?
    ensures m.status == Running <==> (exists i: nat :: JobUnfinished(m, i)) || Wedged(m)
    ensures (m.status == Running <==> exists i: nat :: JobUnfinished(m, i)) <==> !Wedged(m)
  {
    if m.jobs != [] && !m.jobs[|m.jobs| - 1].Ended? {
      assert JobUnfinished(m, |m.jobs| - 1);
    }
  }

  /**
  At most one recompute task is unfinished and `_task` points to it; a pointer to an ended task waits for that task's
  callback. The record's fields tell the truth.
  */
  lemma ManagersAreCoherent(maxAge: nat, now: int, kinds: seq<Kind>, es: seq<Event>, k: nat)
    requires k < |Run(Step, Init(maxAge, now, kinds), es).managers|
    ensures var m := Run(Step, Init(maxAge, now, kinds), es).managers[k];
            && (forall i: nat, j: nat :: JobUnfinished(m, i) && JobUnfinished(m, j) ==> i == j)
            && (forall i: nat :: JobUnfinished(m, i) ==> m.task == Some(i))
            && (m.task.Some? ==> JobUnfinished(m, m.task.value) || m.task.value in m.callbacks)
            && (m.status == Pending <==> m.jobs == [])
            && (m.status == Done <==> m.result.Some?)
            && (m.status == Failed <==> m.error.Some?)
            && (m.status == Running <==> m.progress.Some?)
            && (m.status == Running <==> (exists i: nat :: JobUnfinished(m, i)) || Wedged(m))
  {
    ManagerIsOkInRun(maxAge, now, kinds, es, k);
    OkIsCoherent(Run(Step, Init(maxAge, now, kinds), es).managers[k]);
  }

  /** The statistics of a DONE record were fetched before it was updated, and neither lies in the future. */
  lemma DoneRecordsAreDated(maxAge: nat, now: int, kinds: seq<Kind>, es: seq<Event>, k: nat)
    requires k < |Run(Step, Init(maxAge, now, kinds), es).managers|
    ensures var w := Run(Step, Init(maxAge, now, kinds), es);
            var m := w.managers[k];
            m.status == Done ==>
              m.result.Some? && m.lastUpdatedAt.Some? &&
              m.result.value.timeStamp <= m.lastUpdatedAt.value <= w.sys.svc.now
  {
    RunKeepsInv(Init(maxAge, now, kinds), es);
    var w := Run(Step, Init(maxAge, now, kinds), es);
    assert Provenance(w.sys.svc, w.kinds[k], w.managers[k]);
    OkIsCoherent(w.managers[k]);
  }

  /** RUNNING means "one task is at work" exactly when the last task was not cancelled. */
  lemma RunningIsTruthfulUnlessCancelled(maxAge: nat, now: int, kinds: seq<Kind>, es: seq<Event>, k: nat)
    requires k < |Run(Step, Init(maxAge, now, kinds), es).managers|
    ensures var m := Run(Step, Init(maxAge, now, kinds), es).managers[k];
            (m.status == Running <==> exists i: nat :: JobUnfinished(m, i)) <==> !Wedged(m)
  {
    ManagerIsOkInRun(maxAge, now, kinds, es, k);
    OkIsCoherent(Run(Step, Init(maxAge, now, kinds), es).managers[k]);
  }

  lemma CallbackClearsOnlyItsOwn(w: World, k: nat, i: nat)
    requires Inv(w) && k < |w.managers|
    ensures k < |Step(w, JobCallback(k, i)).managers|
    ensures var m, m' := w.managers[k], Step(w, JobCallback(k, i)).managers[k];
            && m' == m.(task := m'.task, callbacks := m.callbacks - {i})
            && (m'.task != m.task ==> m.task == Some(i) && m'.task.None? && forall j: nat :: !JobUnfinished(m, j))
  {
    assert ManagerOk(w.managers[k]);
    assert i !in w.managers[k].callbacks ==> w.managers[k].callbacks - {i} == w.managers[k].callbacks;
  }

  /** A done-callback that runs late never clears the pointer to a newer task. */
  lemma LateCallbackClearsNothingNew(maxAge: nat, now: int, kinds: seq<Kind>, es: seq<Event>, k: nat, i: nat)
    requires k < |Run(Step, Init(maxAge, now, kinds), es).managers|
    ensures var w := Run(Step, Init(maxAge, now, kinds), es);
            && k < |Step(w, JobCallback(k, i)).managers|
            && var m, m' := w.managers[k], Step(w, JobCallback(k, i)).managers[k];
            && m' == m.(task := m'.task, callbacks := m.callbacks - {i})
            && (m'.task != m.task ==> m.task == Some(i) && m'.task.None? && forall j: nat :: !JobUnfinished(m, j))
  {
    RunKeepsInv(Init(maxAge, now, kinds), es);
    CallbackClearsOnlyItsOwn(Run(Step, Init(maxAge, now, kinds), es), k, i);
  }

  lemma WedgedManagerStays(w: World, e: Event)
    requires !e.Snap? && e.m < |w.managers| && e.m < |w.kinds|
    requires ManagerOk(w.managers[e.m]) && Wedged(w.managers[e.m])
    ensures NextManager(w, e).jobs == w.managers[e.m].jobs
  {
    var m := w.managers[e.m];
    assert forall i | 0 <= i < |m.jobs| :: m.jobs[i].Ended?;
  }

  lemma WedgedStep(w: World, e: Event, k: nat)
    requires Inv(w) && k < |w.managers| && Wedged(w.managers[k])
    ensures k < |Step(w, e).managers| && Wedged(Step(w, e).managers[k])
    ensures Step(w, e).managers[k].jobs == w.managers[k].jobs
  {
    if !e.Snap? && e.m == k {
      assert ManagerOk(w.managers[k]);
      WedgedManagerStays(w, e);
    }
  }

  lemma {:induction false} WedgedFrom(w: World, es: seq<Event>, k: nat)
    requires Inv(w) && k < |w.managers| && Wedged(w.managers[k])
    ensures k < |Run(Step, w, es).managers| && Wedged(Run(Step, w, es).managers[k])
    ensures Run(Step, w, es).managers[k].jobs == w.managers[k].jobs
    decreases |es|
  {
    if es == [] {
    } else {
      StepKeepsInv(w, es[0]);
      WedgedStep(w, es[0], k);
      WedgedFrom(Step(w, es[0]), es[1..], k);
    }
  }

  lemma WedgedMeansIdleRunning(w: World, k: nat)
    requires Inv(w) && k < |w.managers| && Wedged(w.managers[k])
    ensures w.managers[k].status == Running && w.managers[k].result.None?
    ensures forall i: nat :: !JobUnfinished(w.managers[k], i)
  {
    assert ManagerOk(w.managers[k]);
  }

  /**
  A manager whose recompute task was cancelled never recovers: whatever happens next, refreshes
  included, it keeps reporting RUNNING without a result and never creates another task.
  */
  lemma CancellationWedgesForever(maxAge: nat, now: int, kinds: seq<Kind>, es: seq<Event>, more: seq<Event>, k: nat)
    requires k < |Run(Step, Init(maxAge, now, kinds), es).managers|
    requires Wedged(Run(Step, Init(maxAge, now, kinds), es).managers[k])
    ensures var later := Run(Step, Init(maxAge, now, kinds), es + more);
            && k < |later.managers|
            && later.managers[k].jobs == Run(Step, Init(maxAge, now, kinds), es).managers[k].jobs
            && later.managers[k].status == Running
            && later.managers[k].result.None?
            && forall i: nat :: !JobUnfinished(later.managers[k], i)
  {
    RunKeepsInv(Init(maxAge, now, kinds), es);
    WedgedFrom(Run(Step, Init(maxAge, now, kinds), es), more, k);
    RunConcat(Step, Init(maxAge, now, kinds), es, more);
    RunKeepsInv(Init(maxAge, now, kinds), es + more);
    WedgedMeansIdleRunning(Run(Step, Init(maxAge, now, kinds), es + more), k);
  }

  // ----- without cancellation -----

  /** The ways a recompute task can be cancelled: itself, its wait for a snapshot, or the fetch it waits for. */
  predicate Cancels(e: Event) {
    || e.CancelJob?
    || (e.Snap? && e.e.FetchIsCancelled?)
    || (e.Snap? && e.e.CancelCaller? && e.e.c.Recompute?)
  }

  /** Nobody inside the snapshot service on behalf of a recompute task has seen, or will see, a cancellation. */
  ghost predicate CallsUncancelled(sys: P.System) {
    && (forall t | 0 <= t < |sys.svc.tasks| :: !sys.svc.tasks[t].FetchCancelled?)
    && (forall c | c in sys.callers && c.Recompute? && sys.callers[c].Raised? :: !sys.callers[c].cancelled)
  }

  ghost predicate Uncancelled(w: World) {
    CallsUncancelled(w.sys) && forall k | 0 <= k < |w.managers| :: !Wedged(w.managers[k])
  }

  lemma CallsStayUncancelled(sys: P.System, e: P.Event)
    requires P.Inv(sys) && CallsUncancelled(sys)
    requires !e.FetchIsCancelled? && !(e.CancelCaller? && e.c.Recompute?)
    ensures CallsUncancelled(P.Step(sys, e))
  {
  }

  lemma NextManagerIsNotWedged(w: World, e: Event)
    requires Inv(w) && Uncancelled(w) && !Cancels(e) && !e.Snap? && e.m < |w.managers|
    ensures !Wedged(NextManager(w, e))
  {
    assert ManagerOk(w.managers[e.m]) && !Wedged(w.managers[e.m]);
  }

  lemma UncancelledStep(w: World, e: Event)
    requires Inv(w) && Uncancelled(w) && !Cancels(e)
    ensures Uncancelled(Step(w, e))
  {
    if e.Snap? {
      CallsStayUncancelled(w.sys, e.e);
    } else if e.m < |w.managers| {
      NextManagerIsNotWedged(w, e);
      if NextSystem(w, e) != w.sys {
        CallsStayUncancelled(w.sys,
          P.Call(P.Recompute(e.m, e.i), if w.managers[e.m].jobs[e.i].force then P.Forced else P.Cached));
      }
    }
  }

  lemma {:induction false} NoCancellationFrom(w: World, es: seq<Event>)
    requires Inv(w) && Uncancelled(w)
    requires forall e | e in es :: !Cancels(e)
    ensures Uncancelled(Run(Step, w, es))
    decreases |es|
  {
    if es == [] {
    } else {
      assert es[0] in es;
      StepKeepsInv(w, es[0]);
      UncancelledStep(w, es[0]);
      NoCancellationFrom(Step(w, es[0]), es[1..]);
    }
  }

  /** In a run without cancellation RUNNING always means exactly one unfinished task. */
  lemma WithoutCancellationRunningIsTruthful(maxAge: nat, now: int, kinds: seq<Kind>, es: seq<Event>, k: nat)
    requires forall e | e in es :: !Cancels(e)
    requires k < |Run(Step, Init(maxAge, now, kinds), es).managers|
    ensures var m := Run(Step, Init(maxAge, now, kinds), es).managers[k];
            m.status == Running <==> exists i: nat :: JobUnfinished(m, i)
  {
    NoCancellationFrom(Init(maxAge, now, kinds), es);
    RunningIsTruthfulUnlessCancelled(maxAge, now, kinds, es, k);
  }

  // ----- cached metrics agree with recomputation -----

  ghost predicate DistinctFetchTimes(svc: P.Service) {
    forall t: nat, u: nat | t < u < |svc.tasks| && svc.tasks[t].Fetched? && svc.tasks[u].Fetched? ::
      svc.tasks[t].snapshot.fetchedAt != svc.tasks[u].snapshot.fetchedAt
  }

  /** Whenever `ensure_current` returns early, the held result was built from a fetch stamped like the stored one. */
  lemma EarlyReturnIsFromThatInstant(maxAge: nat, now: int, kinds: seq<Kind>, es: seq<Event>, k: nat) returns (t: nat)
    requires k < |Run(Step, Init(maxAge, now, kinds), es).managers|
    requires var w := Run(Step, Init(maxAge, now, kinds), es);
             EarlyReturn(w.managers[k], P.CachedTimestamp(w.sys.svc))
    ensures var w := Run(Step, Init(maxAge, now, kinds), es);
            var svc := w.sys.svc;
            && svc.stored.Some? && !P.IsStale(svc)
            && t < |svc.tasks| && svc.tasks[t].Fetched?
            && svc.tasks[t].snapshot.fetchedAt == svc.stored.value.fetchedAt
            && k < |w.kinds| && w.managers[k].result == Some(Build(w.kinds[k], svc.tasks[t].snapshot))
  {
    RunKeepsInv(Init(maxAge, now, kinds), es);
    var w := Run(Step, Init(maxAge, now, kinds), es);
    assert Provenance(w.sys.svc, w.kinds[k], w.managers[k]);
    t :| t < |w.sys.svc.tasks| && w.sys.svc.tasks[t].Fetched?
         && w.managers[k].result.value == Build(w.kinds[k], w.sys.svc.tasks[t].snapshot);
    BuildIsStamped(w.kinds[k], w.sys.svc.tasks[t].snapshot);
  }

  lemma EqualStampsEqualSnapshots(svc: P.Service, t: nat)
    requires DistinctFetchTimes(svc) && svc.stored.Some? && P.IsResult(svc, svc.stored.value)
    requires t < |svc.tasks| && svc.tasks[t].Fetched?
    requires svc.tasks[t].snapshot.fetchedAt == svc.stored.value.fetchedAt
    ensures svc.tasks[t].snapshot == svc.stored.value
  {
    var u: nat :| u < |svc.tasks| && svc.tasks[u] == P.Fetched(svc.stored.value);
    assert !(t < u) && !(u < t);
  }

  /**
  If no two fetches finished at the same clock reading, an early return hands out exactly what building
  anew from the stored snapshot would give, even if the store was refilled while an earlier build was at
  work, and whatever was cancelled.
  */
  lemma EarlyReturnAgrees(maxAge: nat, now: int, kinds: seq<Kind>, es: seq<Event>, k: nat)
    requires k < |Run(Step, Init(maxAge, now, kinds), es).managers|
    requires var w := Run(Step, Init(maxAge, now, kinds), es);
             EarlyReturn(w.managers[k], P.CachedTimestamp(w.sys.svc)) && DistinctFetchTimes(w.sys.svc)
    ensures var w := Run(Step, Init(maxAge, now, kinds), es);
            && w.sys.svc.stored.Some? && !P.IsStale(w.sys.svc)
            && k < |w.kinds| && w.managers[k].result == Some(Build(w.kinds[k], w.sys.svc.stored.value))
  {
    var t := EarlyReturnIsFromThatInstant(maxAge, now, kinds, es, k);
    RunKeepsInv(Init(maxAge, now, kinds), es);
    EqualStampsEqualSnapshots(Run(Step, Init(maxAge, now, kinds), es).sys.svc, t);
  }

  /**
  Without that assumption the early return comes from some fetch with the stored snapshot's stamp, and it agrees
  with building anew exactly when the two snapshots build to the same statistics.
  */
  lemma EarlyReturnAgreesIff(maxAge: nat, now: int, kinds: seq<Kind>, es: seq<Event>, k: nat) returns (t: nat)
    requires k < |Run(Step, Init(maxAge, now, kinds), es).managers|
    requires var w := Run(Step, Init(maxAge, now, kinds), es);
             EarlyReturn(w.managers[k], P.CachedTimestamp(w.sys.svc))
    ensures var w := Run(Step, Init(maxAge, now, kinds), es);
            var svc := w.sys.svc;
            && k < |w.kinds| && svc.stored.Some?
            && t < |svc.tasks| && svc.tasks[t].Fetched?
            && svc.tasks[t].snapshot.fetchedAt == svc.stored.value.fetchedAt
            && (w.managers[k].result == Some(Build(w.kinds[k], svc.stored.value)) <==>
                Build(w.kinds[k], svc.tasks[t].snapshot) == Build(w.kinds[k], svc.stored.value))
  {
    t := EarlyReturnIsFromThatInstant(maxAge, now, kinds, es, k);
  }

  /** A refresh reaches the snapshot service, which fetches; the fetch ends as given. */
  function RefreshUntil(end: P.Event): seq<Event> {
    [Refresh(0), Begin(0, 0), Snap(P.AcquireLock(P.Recompute(0, 0))), Snap(end)]
  }

  /** The refresh completes; then a request forces another refresh at the same clock reading. */
  function CompleteAndRefetch(): seq<Event> {
    [Snap(P.Resume(P.Recompute(0, 0))), GotSnapshot(0, 0), Built(0, 0), Snap(P.Call(P.Request(1), P.Forced))]
  }

  function FirstRefresh(txs: seq<Transaction>, metrics: FetchMetrics): seq<Event> {
    RefreshUntil(P.FetchSucceeds(0, txs, metrics))
  }

  lemma AfterFirstFetch(kind: Kind, txs: seq<Transaction>, metrics: FetchMetrics)
    ensures var w := Run(Step, Init(300, 0, [kind]), FirstRefresh(txs, metrics));
            var first := Snapshot(txs, metrics, 0);
            && w.kinds == [kind] && |w.managers| == 1
            && w.managers[0].jobs == [Calling]
            && w.sys == P.System(P.Service(300, 0, Some(first), Some(0), [P.Fetched(first)]),
                                 map[P.Recompute(0, 0) := P.Waiting(P.Forced, 0, 0)])
  {
    var es := FirstRefresh(txs, metrics);
    RunFour(Step, Init(300, 0, [kind]), es[0], es[1], es[2], es[3]);
  }

  lemma CompletedAndRefetched(w: World, kind: Kind, first: Snapshot)
    requires && first.fetchedAt == 0
             && w.kinds == [kind] && |w.managers| == 1
             && w.managers[0].jobs == [Calling]
             && w.sys == P.System(P.Service(300, 0, Some(first), Some(0), [P.Fetched(first)]),
                                  map[P.Recompute(0, 0) := P.Waiting(P.Forced, 0, 0)])
    ensures var w' := Run(Step, w, CompleteAndRefetch());
            && w'.kinds == [kind] && |w'.managers| == 1
            && w'.managers[0].status == Done && w'.managers[0].result == Some(Build(kind, first))
            && w'.sys.svc == P.Service(300, 0, Some(first), None, [P.Fetched(first)])
            && P.Request(1) in w'.sys.callers && w'.sys.callers[P.Request(1)] == P.AtLock(P.Forced, 0)
  {
    var es := CompleteAndRefetch();
    RunFour(Step, w, es[0], es[1], es[2], es[3]);
  }

  lemma SecondFetchIsStored(w: World, kind: Kind, first: Snapshot, txs: seq<Transaction>, metrics: FetchMetrics)
    requires && first.fetchedAt == 0
             && w.kinds == [kind] && |w.managers| == 1
             && w.managers[0].status == Done && w.managers[0].result == Some(Build(kind, first))
             && w.sys.svc == P.Service(300, 0, Some(first), None, [P.Fetched(first)])
             && P.Request(1) in w.sys.callers && w.sys.callers[P.Request(1)] == P.AtLock(P.Forced, 0)
    ensures var w' := Run(Step, w, [Snap(P.AcquireLock(P.Request(1))), Snap(P.FetchSucceeds(1, txs, metrics))]);
            && |w'.managers| == 1
            && w'.managers[0].result == Some(Build(kind, first))
            && EarlyReturn(w'.managers[0], P.CachedTimestamp(w'.sys.svc))
            && w'.sys.svc.stored == Some(Snapshot(txs, metrics, 0))
  {
    var es := [Snap(P.AcquireLock(P.Request(1))), Snap(P.FetchSucceeds(1, txs, metrics))];
    RunSnoc(Step, w, [], es[0]);
    RunSnoc(Step, w, [es[0]], es[1]);
    assert [] + [es[0]] == [es[0]] && [es[0]] + [es[1]] == es;
    BuildIsStamped(kind, first);
  }

  /** A refresh, then a forced request that fetches again before the clock moves. */
  function TwoFetchesAtOneReading(
    txs1: seq<Transaction>, m1: FetchMetrics, txs2: seq<Transaction>, m2: FetchMetrics): seq<Event>
  {
    FirstRefresh(txs1, m1) + CompleteAndRefetch() +
    [Snap(P.AcquireLock(P.Request(1))), Snap(P.FetchSucceeds(1, txs2, m2))]
  }

  /**
  Distinct clock readings are needed: whatever two fetches answer at one reading, the manager returns early with
  the statistics of the first, which are current exactly when the second builds to the same ones.
  */
  lemma EqualTimestampsAgreeIff(
    kind: Kind, txs1: seq<Transaction>, m1: FetchMetrics, txs2: seq<Transaction>, m2: FetchMetrics)
    ensures var w := Run(Step, Init(300, 0, [kind]), TwoFetchesAtOneReading(txs1, m1, txs2, m2));
            && |w.managers| == 1
            && EarlyReturn(w.managers[0], P.CachedTimestamp(w.sys.svc))
            && w.sys.svc.stored == Some(Snapshot(txs2, m2, 0))
            && (w.managers[0].result == Some(Build(kind, w.sys.svc.stored.value)) <==>
                Build(kind, Snapshot(txs1, m1, 0)) == Build(kind, Snapshot(txs2, m2, 0)))
  {
    var w0, first := Init(300, 0, [kind]), Snapshot(txs1, m1, 0);
    var last := [Snap(P.AcquireLock(P.Request(1))), Snap(P.FetchSucceeds(1, txs2, m2))];
    AfterFirstFetch(kind, txs1, m1);
    var w1 := Run(Step, w0, FirstRefresh(txs1, m1));
    CompletedAndRefetched(w1, kind, first);
    RunConcat(Step, w0, FirstRefresh(txs1, m1), CompleteAndRefetch());
    var w2 := Run(Step, w1, CompleteAndRefetch());
    SecondFetchIsStored(w2, kind, first, txs2, m2);
    RunConcat(Step, w0, FirstRefresh(txs1, m1) + CompleteAndRefetch(), last);
  }

  /** And they can differ, for every kind of statistics: a changed total is enough. */
  lemma EqualTimestampsBreakAgreement(kind: Kind, txs: seq<Transaction>, total: int, durationMs: int)
    ensures var m1, m2 := FetchMetrics(total, durationMs), FetchMetrics(total + 1, durationMs);
            var es := TwoFetchesAtOneReading(txs, m1, txs, m2);
            var w := Run(Step, Init(300, 0, [kind]), es);
            && |w.managers| == 1
            && EarlyReturn(w.managers[0], P.CachedTimestamp(w.sys.svc))
            && w.sys.svc.stored.Some?
            && w.managers[0].result != Some(Build(kind, w.sys.svc.stored.value))
  {
    EqualTimestampsAgreeIff(kind, txs, FetchMetrics(total, durationMs), txs, FetchMetrics(total + 1, durationMs));
    TotalsShow(kind, txs, FetchMetrics(total, durationMs), FetchMetrics(total + 1, durationMs));
  }

  lemma TotalsShow(kind: Kind, txs: seq<Transaction>, m1: FetchMetrics, m2: FetchMetrics)
    requires m1.total != m2.total
    ensures Build(kind, Snapshot(txs, m1, 0)) != Build(kind, Snapshot(txs, m2, 0))
  {
    assert Build(kind, Snapshot(txs, m1, 0)).total == m1.total;
    assert Build(kind, Snapshot(txs, m2, 0)).total == m2.total;
  }

  /** One cancelled fetch, whoever's request was abandoned, is enough to wedge a manager that waits for it. */
  lemma CancelledFetchWedgesTheManager(kind: Kind)
    ensures var w := Run(Step, Init(300, 0, [kind]), RefreshUntil(P.FetchIsCancelled(0))
                                                     + [Snap(P.Resume(P.Recompute(0, 0)))] + [CallFailed(0, 0, "")]);
            |w.managers| == 1 && Wedged(w.managers[0])
  {
    var job, w0 := P.Recompute(0, 0), Init(300, 0, [kind]);
    var es := RefreshUntil(P.FetchIsCancelled(0));
    RunFour(Step, w0, es[0], es[1], es[2], es[3]);
    var w4 := Run(Step, w0, es);
    assert w4.managers[0].jobs == [Calling];
    assert w4.sys.callers == map[job := P.Waiting(P.Forced, 0, 0)];
    RunSnoc(Step, w0, es, Snap(P.Resume(job)));
    RunSnoc(Step, w0, es + [Snap(P.Resume(job))], CallFailed(0, 0, ""));
  }
}
