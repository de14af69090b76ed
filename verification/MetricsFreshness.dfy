/**
What the callers of a metrics manager can rely on, in every run of MetricsManagers: when
`ensure_current` answers at once and when it starts a task, and how recent the
statistics are that a task leaves behind.
*/
module MetricsFreshness {
  import opened Wrappers
  import opened Metrics
  import opened Runs
  import opened MetricsManagers
  import P = SnapshotProtocol

  // ----- what a request does -----

  lemma {:induction false} MaxAgeStays(w: World, es: seq<Event>)
    ensures Run(Step, w, es).sys.svc.maxAge == w.sys.svc.maxAge
    decreases |es|
  {
    if es == [] {
    } else {
      MaxAgeStays(Step(w, es[0]), es[1..]);
    }
  }

  /** One new task is queued and the record is reset; only the time of the last success stays. */
  predicate Restarted(m: Manager, m': Manager, force: bool) {
    && m'.jobs == m.jobs + [Queued(force)]
    && m'.task == Some(|m.jobs|)
    && m'.status == Running && m'.progress == Some("queued")
    && m'.result.None? && m'.error.None?
    && m'.lastUpdatedAt == m.lastUpdatedAt && m'.callbacks == m.callbacks
  }

  /** Nothing but manager `k` changes between the two worlds. */
  predicate OnlyManager(k: nat, w: World, w': World) {
    k < |w.managers| == |w'.managers| && w' == w.(managers := w.managers[k := w'.managers[k]])
  }

  /**
  In every run `ensure_current` leaves a manager DONE exactly when something is stored, no older than the maximum
  age, and the held statistics carry its timestamp. Then, and while a task is at work, it changes nothing;
  otherwise it starts exactly one task.
  */
  lemma EnsureCurrentAnswersIff(maxAge: nat, now: int, kinds: seq<Kind>, es: seq<Event>, k: nat)
    requires k < |Run(Step, Init(maxAge, now, kinds), es).managers|
    ensures var w := Run(Step, Init(maxAge, now, kinds), es);
            var m, stored, w' := w.managers[k], w.sys.svc.stored, Step(w, Ensure(k));
            && OnlyManager(k, w, w')
            && (w'.managers[k].status == Done <==>
                  && stored.Some? && w.sys.svc.now - stored.value.fetchedAt <= maxAge
                  && m.result.Some? && m.result.value.timeStamp == stored.value.fetchedAt)
            && (if w'.managers[k].status == Done || m.status == Running then w' == w
                else Restarted(m, w'.managers[k], false))
  {
    RunKeepsInv(Init(maxAge, now, kinds), es);
    MaxAgeStays(Init(maxAge, now, kinds), es);
    OkIsCoherent(Run(Step, Init(maxAge, now, kinds), es).managers[k]);
  }

  /** A refresh starts exactly one forced task, unless the manager is RUNNING. */
  lemma RefreshStartsATaskIff(maxAge: nat, now: int, kinds: seq<Kind>, es: seq<Event>, k: nat)
    requires k < |Run(Step, Init(maxAge, now, kinds), es).managers|
    ensures var w := Run(Step, Init(maxAge, now, kinds), es);
            var w' := Step(w, Refresh(k));
            && OnlyManager(k, w, w')
            && (if w.managers[k].status == Running then w' == w
                else Restarted(w.managers[k], w'.managers[k], true))
  {
    RunKeepsInv(Init(maxAge, now, kinds), es);
    OkIsCoherent(Run(Step, Init(maxAge, now, kinds), es).managers[k]);
  }

  // ----- how recent a task's result is -----

  /** What is known of task `i` of manager `k`, started at the clock reading `since`, at every later moment. */
  ghost predicate RecentIn(sys: P.System, m: Manager, k: nat, i: nat, force: bool, since: int) {
    && i < |m.jobs| && since <= sys.svc.now
    && var call, oldest := P.Recompute(k, i), if force then since else since - sys.svc.maxAge;
       match m.jobs[i]
       case Queued(f) => f == force
       case Calling =>
         call in sys.callers && sys.callers[call].mode.Forced? == force && since <= sys.callers[call].calledAt
       case Building(snapshot) => oldest <= snapshot.fetchedAt
       case Ended(_) => |m.jobs| == i + 1 && m.result.Some? ==> oldest <= m.result.value.timeStamp
  }

  ghost predicate Recent(w: World, k: nat, i: nat, force: bool, since: int) {
    k < |w.managers| && RecentIn(w.sys, w.managers[k], k, i, force, since)
  }

  lemma CallsStay(s: P.System, e: P.Event, c: P.CallerId)
    requires c in s.callers
    ensures c in P.Step(s, e).callers
    ensures P.Step(s, e).callers[c].mode == s.callers[c].mode
    ensures P.Step(s, e).callers[c].calledAt == s.callers[c].calledAt
  {
  }

  lemma RecentAfterSnapshotStep(w: World, e: P.Event, k: nat, i: nat, force: bool, since: int)
    requires Recent(w, k, i, force, since)
    ensures Recent(w.(sys := P.Step(w.sys, e)), k, i, force, since)
  {
    if w.managers[k].jobs[i].Calling? {
      CallsStay(w.sys, e, P.Recompute(k, i));
    }
  }

  lemma RecentAfterBegin(w: World, e: Event, i: nat, force: bool, since: int)
    requires Inv(w) && e.Begin? && e.m < |w.managers| && Recent(w, e.m, i, force, since)
    ensures Recent(Step(w, e), e.m, i, force, since)
  {
    assert ManagerOk(w.managers[e.m]);
  }

  lemma RecentAfterAnswer(w: World, e: Event, i: nat, force: bool, since: int)
    requires Inv(w) && e.GotSnapshot? && e.m < |w.managers| && Recent(w, e.m, i, force, since)
    ensures Recent(Step(w, e), e.m, i, force, since)
  {
    assert ManagerOk(w.managers[e.m]);
    assert CallIs(w, e.m, e.i, true) ==> P.CallerOk(w.sys.svc, w.sys.callers[P.Recompute(e.m, e.i)]);
  }

  lemma RecentAfterBuild(w: World, e: Event, i: nat, force: bool, since: int)
    requires Inv(w) && e.Built? && e.m < |w.managers| && Recent(w, e.m, i, force, since)
    ensures Recent(Step(w, e), e.m, i, force, since)
  {
    var m := w.managers[e.m];
    assert ManagerOk(m);
    if e.i < |m.jobs| && m.jobs[e.i].Building? {
      BuildIsStamped(w.kinds[e.m], m.jobs[e.i].snapshot);
    }
  }

  lemma RecentAfterStart(w: World, e: Event, i: nat, force: bool, since: int)
    requires Inv(w) && (e.Ensure? || e.Refresh?) && e.m < |w.managers| && Recent(w, e.m, i, force, since)
    ensures Recent(Step(w, e), e.m, i, force, since)
  {
    assert ManagerOk(w.managers[e.m]);
  }

  /** A failed or cancelled task leaves no result. */
  lemma RecentAfterFailure(
    sys: P.System, m: Manager, k: nat, i: nat, force: bool, since: int, j: nat, message: string)
    requires ManagerOk(m) && RecentIn(sys, m, k, i, force, since) && j < |m.jobs| && !m.jobs[j].Ended?
    ensures RecentIn(sys, EndJob(m, j, true), k, i, force, since)
    ensures RecentIn(sys, FailJob(m, j, message), k, i, force, since)
  {
  }

  lemma RecentAfterEnd(w: World, e: Event, i: nat, force: bool, since: int)
    requires Inv(w) && (e.CallFailed? || e.BuildFailed? || e.CancelJob? || e.JobCallback?)
    requires e.m < |w.managers| && Recent(w, e.m, i, force, since)
    ensures Recent(Step(w, e), e.m, i, force, since)
  {
    var m := w.managers[e.m];
    assert ManagerOk(m);
    if e.i < |m.jobs| && !m.jobs[e.i].Ended? {
      var message := if e.CallFailed? || e.BuildFailed? then e.message else "";
      RecentAfterFailure(w.sys, m, e.m, i, force, since, e.i, message);
    }
  }

  lemma RecentAfterOwnStep(w: World, e: Event, i: nat, force: bool, since: int)
    requires Inv(w) && !e.Snap? && e.m < |w.managers| && Recent(w, e.m, i, force, since)
    ensures Recent(Step(w, e), e.m, i, force, since)
  {
    if e.Begin? {
      RecentAfterBegin(w, e, i, force, since);
    } else if e.GotSnapshot? {
      RecentAfterAnswer(w, e, i, force, since);
    } else if e.Built? {
      RecentAfterBuild(w, e, i, force, since);
    } else if e.Ensure? || e.Refresh? {
      RecentAfterStart(w, e, i, force, since);
    } else {
      RecentAfterEnd(w, e, i, force, since);
    }
  }

  lemma RecentAfterOtherStep(w: World, e: Event, k: nat, i: nat, force: bool, since: int)
    requires !e.Snap? && e.m != k && Recent(w, k, i, force, since)
    ensures Recent(Step(w, e), k, i, force, since)
  {
    if e.m < |w.managers| && w.managers[k].jobs[i].Calling? && NextSystem(w, e) != w.sys {
      CallsStay(w.sys,
        P.Call(P.Recompute(e.m, e.i), if w.managers[e.m].jobs[e.i].force then P.Forced else P.Cached),
        P.Recompute(k, i));
    }
  }

  lemma {:induction false} RecentFrom(w: World, es: seq<Event>, k: nat, i: nat, force: bool, since: int)
    requires Inv(w) && Recent(w, k, i, force, since)
    ensures Recent(Run(Step, w, es), k, i, force, since)
    decreases |es|
  {
    if es == [] {
    } else {
      StepKeepsInv(w, es[0]);
      if es[0].Snap? {
        RecentAfterSnapshotStep(w, es[0].e, k, i, force, since);
      } else if es[0].m != k {
        RecentAfterOtherStep(w, es[0], k, i, force, since);
      } else {
        RecentAfterOwnStep(w, es[0], i, force, since);
      }
      RecentFrom(Step(w, es[0]), es[1..], k, i, force, since);
    }
  }

  /** The request that forces a fetch, or the one that does not. */
  function Request(k: nat, force: bool): Event {
    if force then Refresh(k) else Ensure(k)
  }

  lemma RecentAfterRequest(w: World, k: nat, force: bool, more: seq<Event>)
    requires Inv(w) && k < |w.managers|
    requires Restarted(w.managers[k], Step(w, Request(k, force)).managers[k], force)
    ensures var later := Run(Step, Step(w, Request(k, force)), more);
            && Inv(later) && later.sys.svc.maxAge == w.sys.svc.maxAge
            && Recent(later, k, |w.managers[k].jobs|, force, w.sys.svc.now)
  {
    StepKeepsInv(w, Request(k, force));
    RunKeepsInv(Step(w, Request(k, force)), more);
    RecentFrom(Step(w, Request(k, force)), more, k, |w.managers[k].jobs|, force, w.sys.svc.now);
    MaxAgeStays(Step(w, Request(k, force)), more);
  }

  /** A manager that is DONE with the task in question holds a result that is recent enough. */
  lemma RecentResult(w: World, k: nat, i: nat, force: bool, since: int)
    requires Inv(w) && Recent(w, k, i, force, since)
    ensures var m := w.managers[k];
            && |m.jobs| > i
            && (|m.jobs| == i + 1 && m.status == Done ==>
                  m.result.Some? &&
                  (if force then since else since - w.sys.svc.maxAge) <= m.result.value.timeStamp)
  {
    assert ManagerOk(w.managers[k]);
  }

  /**
  Whatever happens after a request that starts a task: once the manager is DONE with that task, its statistics come
  from a fetch no older than a refresh, and at most the maximum age older than any other request.
  */
  lemma ResultsAreAsRecentAsTheRequest(
    maxAge: nat, now: int, kinds: seq<Kind>, es: seq<Event>, k: nat, force: bool, more: seq<Event>)
    requires k < |Run(Step, Init(maxAge, now, kinds), es).managers|
    requires var w := Run(Step, Init(maxAge, now, kinds), es);
             Restarted(w.managers[k], Step(w, Request(k, force)).managers[k], force)
    ensures var w := Run(Step, Init(maxAge, now, kinds), es);
            var later := Run(Step, Step(w, Request(k, force)), more);
            && k < |later.managers| && |later.managers[k].jobs| > |w.managers[k].jobs|
            && (|later.managers[k].jobs| == |w.managers[k].jobs| + 1 && later.managers[k].status == Done ==>
                  && later.managers[k].result.Some?
                  && var asked := w.sys.svc.now;
                     (if force then asked else asked - maxAge) <= later.managers[k].result.value.timeStamp)
  {
    var w := Run(Step, Init(maxAge, now, kinds), es);
    RunKeepsInv(Init(maxAge, now, kinds), es);
    MaxAgeStays(Init(maxAge, now, kinds), es);
    RecentAfterRequest(w, k, force, more);
    RecentResult(Run(Step, Step(w, Request(k, force)), more), k, |w.managers[k].jobs|, force, w.sys.svc.now);
  }
}
