/**
One metrics manager with its state record as an object (src/services/tx_stats/manager.py,
src/services/tx_stats/runner.py; src/services/allegro_stats/manager.py and
src/services/blik_stats/manager.py are the same code). Each method is what runs between
two suspensions, and its contract is the matching segment of MetricsManagers.

`jobs` and `callbacks` stand for what the event loop knows of the recompute tasks.
*/
module MetricsManagerObject {
  import opened Wrappers
  import opened Metrics
  import M = MetricsManagers

  class MetricsManager {
    var status: M.Status
    var result: Option<Statistics>
    var error: Option<string>
    var progress: Option<string>
    var lastUpdatedAt: Option<int>
    var task: Option<nat>
    var jobs: seq<M.Job>
    var callbacks: set<nat>

    ghost function State(): M.Manager
      reads this
    {
      M.Manager(status, result, error, progress, lastUpdatedAt, task, jobs, callbacks)
    }

    constructor ()
      ensures State() == M.NewManager()
    {
      status, result, error, progress, lastUpdatedAt := M.Pending, None, None, None, None;
      task, jobs, callbacks := None, [], {};
    }

    /** `ensure_current`; `cached` is the timestamp of the cached snapshot, if there is a fresh one. */
    method EnsureCurrent(cached: Option<int>)
      modifies this
      ensures State() == M.EnsureCurrent(old(State()), cached)
    {
      if status == M.Running {
        return;
      }
      if status == M.Done && result.Some? && cached.Some? && result.value.timeStamp == cached.value {
        return;
      }
      Start(false);
    }

    method Refresh()
      modifies this
      ensures State() == M.StartJob(old(State()), true)
    {
      Start(true);
    }

    /** `_start`, which never suspends while it holds the manager's lock. */
    method Start(forceRefresh: bool)
      modifies this
      ensures State() == M.StartJob(old(State()), forceRefresh)
    {
      if status == M.Running {
        return;
      }
      if task.Some? && task.value < |jobs| && !jobs[task.value].Ended? {
        return;
      }
      status := M.Running;
      progress := Some("queued");
      error := None;
      result := None;
      jobs := jobs + [M.Queued(forceRefresh)];
      task := Some(|jobs| - 1);
    }

    /** `recompute_metrics` up to the call of the provider. */
    method RecomputeBegins(i: nat)
      requires i < |jobs| && jobs[i].Queued?
      modifies this
      ensures State() == M.BeginJob(old(State()), i)
      ensures status == M.Running && progress == Some("fetching") && error.None? && result.None?
    {
      status := M.Running;
      progress := Some("fetching");
      error := None;
      result := None;
      jobs := jobs[i := M.Calling];
    }

    method RecomputeSucceeds(i: nat, built: Statistics, now: int)
      requires i < |jobs| && !jobs[i].Ended?
      modifies this
      ensures State() == M.FinishJob(old(State()), i, built, now)
      ensures status == M.Done && result == Some(built) && lastUpdatedAt == Some(now) && progress.None?
    {
      result := Some(built);
      status := M.Done;
      lastUpdatedAt := Some(now);
      progress := None;
      TaskEnds(i, false);
    }

    /** The `except Exception` branch. */
    method RecomputeFails(i: nat, message: string)
      requires i < |jobs| && !jobs[i].Ended?
      modifies this
      ensures State() == M.FailJob(old(State()), i, message)
      ensures status == M.Failed && error == Some(message) && result.None? && progress.None?
    {
      status := M.Failed;
      error := Some(message);
      progress := None;
      result := None;
      TaskEnds(i, false);
    }

    /** The event loop marks a task done and schedules its callback; a cancelled task gets here directly. */
    method TaskEnds(i: nat, cancelled: bool)
      requires i < |jobs| && !jobs[i].Ended?
      modifies this`jobs, this`callbacks
      ensures State() == M.EndJob(old(State()), i, cancelled)
    {
      jobs := jobs[i := M.Ended(cancelled)];
      callbacks := callbacks + {i};
    }

    method OnTaskDone(i: nat)
      modifies this
      ensures State() == M.OnTaskDone(old(State()), i)
    {
      callbacks := callbacks - {i};
      if task == Some(i) {
        task := None;
      }
    }
  }
}
