/**
The snapshot service and its store as objects (src/services/snapshot/service.py,
src/services/snapshot/store.py). Each method is what a coroutine runs between two
suspensions; its contract is the matching segment of SnapshotProtocol. Which coroutine
runs next is the event loop's choice, which only the protocol models.

The event loop's knowledge of the fetch tasks is the field `tasks`; a task is
named by its index. The clock reading is a parameter.
*/
module SnapshotService {
  import opened Wrappers
  import opened Ledger
  import opened Metrics
  import P = SnapshotProtocol

  class InMemorySnapshotStore {
    var snapshot: Option<Snapshot>

    constructor ()
      ensures snapshot == None
    {
      snapshot := None;
    }

    method GetSnapshot() returns (r: Option<Snapshot>)
      ensures r == snapshot
    {
      r := snapshot;
    }

    method SetSnapshot(value: Snapshot)
      modifies this
      ensures snapshot == Some(value)
    {
      snapshot := Some(value);
    }

    method Invalidate()
      modifies this
      ensures snapshot == None
    {
      snapshot := None;
    }

    method IsStale(maxAge: nat, now: int) returns (stale: bool)
      ensures !stale <==> snapshot.Some? && now <= snapshot.value.fetchedAt + maxAge
    {
      if snapshot.None? {
        return true;
      }
      stale := now - snapshot.value.fetchedAt > maxAge;
    }
  }

  class TransactionSnapshotService {
    const store: InMemorySnapshotStore
    const maxAge: nat
    var refreshTask: Option<nat>
    var tasks: seq<P.Task>

    ghost function State(now: int): P.Service
      reads this, store
    {
      P.Service(maxAge, now, store.snapshot, refreshTask, tasks)
    }

    constructor (store: InMemorySnapshotStore, maxAge: nat, ghost now: int)
      requires store.snapshot == None
      ensures this.store == store
      ensures State(now) == P.Init(maxAge, now).svc
    {
      this.store := store;
      this.maxAge := maxAge;
      refreshTask := None;
      tasks := [];
    }

    /** `get_snapshot` up to its first suspension: a fresh cached snapshot, or None to go to the lock. */
    method GetSnapshot(now: int) returns (r: Option<Snapshot>)
      ensures r == if P.IsStale(State(now)) then None else store.snapshot
    {
      var snapshot := store.GetSnapshot();
      if snapshot.Some? {
        var stale := store.IsStale(maxAge, now);
        if !stale {
          return snapshot;
        }
      }
      r := None;
    }

    method GetCachedSnapshotTimestamp(now: int) returns (r: Option<int>)
      ensures r == P.CachedTimestamp(State(now))
    {
      var snapshot := store.GetSnapshot();
      if snapshot.None? {
        return None;
      }
      var stale := store.IsStale(maxAge, now);
      if stale {
        return None;
      }
      r := Some(snapshot.value.fetchedAt);
    }

    /** `_ensure_snapshot` with the lock held: answer from the store, join the fetch under way, or start one. */
    method EnsureSnapshot(forceRefresh: bool, now: int) returns (reply: P.Reply)
      requires refreshTask.Some? ==> refreshTask.value < |tasks|
      modifies this
      ensures (State(now), reply) == P.PassLock(old(State(now)), if forceRefresh then P.Forced else P.Cached)
      ensures refreshTask.Some? ==> refreshTask.value < |tasks|
    {
      if !forceRefresh {
        var snapshot := store.GetSnapshot();
        if snapshot.Some? {
          var stale := store.IsStale(maxAge, now);
          if !stale {
            return P.Give(snapshot.value);
          }
        }
      }
      var task := refreshTask;
      if task.None? || !tasks[task.value].Fetching? {
        tasks := tasks + [P.Fetching];
        task := Some(|tasks| - 1);
        refreshTask := task;
      }
      reply := P.Await(task.value);
    }

    /** The last segment of `_fetch_and_store_snapshot`, once Firefly has answered. */
    method FetchAndStoreSnapshot(t: nat, txs: seq<Transaction>, metrics: FetchMetrics, now: int)
      requires P.Unfinished(State(now), t)
      modifies this, store
      ensures State(now) == P.StoreFetched(old(State(now)), t, txs, metrics)
    {
      var snapshot := Snapshot(txs, metrics, now);
      store.SetSnapshot(snapshot);
      tasks := tasks[t := P.Fetched(snapshot)];
    }

    /** `return await task` with its `finally` clause, run when the waiter continues. */
    method AwaitTask(t: nat, ghost now: int) returns (how: P.Task)
      requires t < |tasks|
      modifies this
      ensures State(now) == P.CleanUp(old(State(now)), t)
      ensures how == old(tasks)[t]
    {
      how := tasks[t];
      if !tasks[t].Fetching? && refreshTask == Some(t) {
        refreshTask := None;
      }
    }
  }
}
