// The persistence engine's queue operations, each one statement run in place on the rows.
// Every method leaves the table that Apply gives for its statement; the statement's own
// properties are proved in QueueTable and Leasing.
module QueueEngine {
  import opened Wrappers
  import opened QueueTable
  import opened Leasing

  datatype QueueCounts = QueueCounts(pending: nat, leased: nat, completed: nat, failed: nat)

  // ORDER BY priority DESC, scheduled_at ASC.
  predicate Before(a: Row, b: Row) {
    a.priority > b.priority || (a.priority == b.priority && a.scheduledAt <= b.scheduledAt)
  }

  class Engine {
    var rows: map<JobId, Row>
    var nextId: JobId

    function Snapshot(): Table
      reads this
    {
      Table(rows, nextId)
    }

    constructor ()
      ensures Snapshot() == EMPTY
    {
      rows, nextId := map[], 1;
    }

    // Returns the new id, or 0 when the path was already queued.
    method EnqueuePath(path: string, priority: int, now: int) returns (id: JobId)
      modifies this
      ensures Snapshot() == Apply(old(Snapshot()), Enqueue(path, priority, now))
      ensures id == if PathTaken(old(rows), path) then 0 else old(nextId)
      ensures Valid(old(Snapshot())) && 0 < old(nextId) ==>
        && Valid(Snapshot())
        && (id == 0 <==> PathTaken(old(rows), path))
        && (id != 0 ==> id !in old(rows) && id in rows && rows[id] == FreshRow(path, priority, now))
      // in the columns' own words
      ensures (exists i :: i in old(rows) && old(rows)[i].path == path) ==> id == 0 && rows == old(rows)
      ensures !(exists i :: i in old(rows) && old(rows)[i].path == path) ==>
        rows == old(rows)[id := Row(path, Pending, priority, 0, now, now, None, None, None, None)]
    {
      if Valid(Snapshot()) && 0 < nextId {
        ApplyKeepsValid(Snapshot(), Enqueue(path, priority, now));
      }
      if exists i :: i in rows && rows[i].path == path {
        id := 0;
      } else {
        id := nextId;
        rows := rows[id := FreshRow(path, priority, now)];
        nextId := nextId + 1;
      }
    }

    // SELECT ... ORDER BY ... LIMIT, then one UPDATE over the ids it returned.
    method LeaseBatch(worker: string, limit: int, now: int, duration: int) returns (entries: seq<Row>, ids: seq<JobId>)
      modifies this
      ensures IsBatch(old(rows), now, limit, ids)
      ensures Snapshot() == Apply(old(Snapshot()), Lease(ids, worker, now, now + duration))
      ensures |entries| == |ids| && forall i :: 0 <= i < |ids| ==>
        ids[i] in rows && entries[i] == rows[ids[i]].(errorMessage := None)
      // in the columns' own words: what is leased is due and of the highest rank, best first
      ensures forall i :: 0 <= i < |ids| ==>
        ids[i] in old(rows) && old(rows)[ids[i]].state.Pending? && old(rows)[ids[i]].scheduledAt <= now
      ensures forall i, j :: 0 <= i < j < |ids| ==>
        ids[i] != ids[j] && Before(old(rows)[ids[i]], old(rows)[ids[j]])
      ensures forall e, i :: 0 <= i < |ids| && e in old(rows) && e !in ids ==>
        (old(rows)[e].state.Pending? && old(rows)[e].scheduledAt <= now ==> Before(old(rows)[ids[i]], old(rows)[e]))
      // as many as the limit, or all there are
      ensures limit >= 0 ==> |ids| <= limit
      ensures |ids| != limit ==> forall e :: e in old(rows) && e !in ids ==>
        !(old(rows)[e].state.Pending? && old(rows)[e].scheduledAt <= now)
      ensures rows.Keys == old(rows).Keys && forall id :: id in rows ==>
        rows[id] == if id in ids
                    then old(rows)[id].(state := Leased, workerId := Some(worker), leasedAt := Some(now),
                                        leaseExpiresAt := Some(now + duration))
                    else old(rows)[id]
    {
      ids := SelectBatch(limit, now);
      BatchInColumns(rows, now, limit, ids);
      entries := [];
      for i := 0 to |ids|
        invariant |entries| == i
        invariant forall k :: 0 <= k < i ==>
          entries[k] == Claim(rows[ids[k]], worker, now, now + duration).(errorMessage := None)
      {
        entries := entries + [Claim(rows[ids[i]], worker, now, now + duration).(errorMessage := None)];
      }
      rows := map id | id in rows :: if id in ids then Claim(rows[id], worker, now, now + duration) else rows[id];
    }

    // The query's answer; among equal keys any order may come back.
    method SelectBatch(limit: int, now: int) returns (ids: seq<JobId>)
      ensures IsBatch(rows, now, limit, ids)
      ensures forall i :: 0 <= i < |ids| ==> ids[i] in rows
    {
      var pool := Eligible(rows, now);
      var remaining := pool;
      ids := [];
      var size := BatchSize(limit, |pool|);
      while |ids| < size
        invariant |ids| <= size
        invariant remaining == pool - Elements(ids)
        invariant |remaining| == |pool| - |ids|
        invariant IsTop(rows, pool, ids)
      {
        BestExists(rows, remaining);
        var best :| best in remaining && IsBest(rows, remaining, best);
        TopExtends(rows, pool, ids, best);
        remaining := remaining - {best};
        ids := ids + [best];
      }
    }

    method UpdateJobState(id: JobId, state: JobState, message: string)
      modifies this
      ensures Snapshot() == Apply(old(Snapshot()), UpdateState(id, state, message))
      ensures rows.Keys == old(rows).Keys && forall i :: i in rows && i != id ==> rows[i] == old(rows)[i]
      ensures id in rows ==> rows[id] == old(rows)[id].(state := state, errorMessage := Some(message))
    {
      if id in rows {
        rows := rows[id := rows[id].(state := state, errorMessage := Some(message))];
      }
    }

    method RequeueWithBackoff(id: JobId, now: int, delay: int, message: string)
      modifies this
      ensures Snapshot() == Apply(old(Snapshot()), Backoff(id, now + delay, message))
      ensures rows.Keys == old(rows).Keys && forall i :: i in rows && i != id ==> rows[i] == old(rows)[i]
      ensures id in rows ==> rows[id] == old(rows)[id].(state := Pending, retryCount := old(rows)[id].retryCount + 1,
        scheduledAt := now + delay, errorMessage := Some(message), workerId := None, leasedAt := None, leaseExpiresAt := None)
    {
      if id in rows {
        var r := rows[id];
        rows := rows[id := Unleased(r).(state := Pending, retryCount := r.retryCount + 1,
                                        scheduledAt := now + delay, errorMessage := Some(message))];
      }
    }

    method CrashRecovery(now: int) returns (recovered: nat)
      modifies this
      ensures Snapshot() == Apply(old(Snapshot()), Recover(now))
      ensures recovered == |StaleIds(old(rows), now)|
      ensures rows.Keys == old(rows).Keys && forall id :: id in rows ==>
        var r := old(rows)[id];
        rows[id] == if r.state in {Leased, Processing, Evaluating, Transcoding}
                       && (r.leaseExpiresAt.None? || r.leaseExpiresAt.value <= now)
                    then r.(state := Pending, retryCount := r.retryCount + 1,
                            workerId := None, leasedAt := None, leaseExpiresAt := None)
                    else r
    {
      var stale := StaleIds(rows, now);
      recovered := |stale|;
      rows := map id | id in rows ::
        if id in stale then Unleased(rows[id]).(state := Pending, retryCount := rows[id].retryCount + 1) else rows[id];
    }

    method ResetInFlightJobs() returns (reset: nat)
      modifies this
      ensures Snapshot() == Apply(old(Snapshot()), ResetInFlight)
      ensures reset == |Counted(old(rows), AsLeased)|
      ensures rows.Keys == old(rows).Keys && forall id :: id in rows ==>
        var r := old(rows)[id];
        rows[id] == if r.state in {Leased, Processing, Evaluating, Transcoding}
                    then r.(state := Pending, workerId := None, leasedAt := None, leaseExpiresAt := None)
                    else r
    {
      reset := |set id | id in rows && InFlight(rows[id].state)|;
      forall id | id in rows
        ensures InFlight(rows[id].state) <==> CounterOf(rows[id].state) == AsLeased
      {
      }
      assert (set id | id in rows && InFlight(rows[id].state)) == Counted(rows, AsLeased);
      rows := map id | id in rows ::
        if InFlight(rows[id].state) then Unleased(rows[id]).(state := Pending) else rows[id];
    }

    method RequeueJob(id: JobId, now: int)
      modifies this
      ensures Snapshot() == Apply(old(Snapshot()), Requeue(id, now))
      ensures rows.Keys == old(rows).Keys && forall i :: i in rows && i != id ==> rows[i] == old(rows)[i]
      ensures id in rows ==> rows[id] == old(rows)[id].(state := Pending, retryCount := 0, scheduledAt := now,
        errorMessage := None, workerId := None, leasedAt := None, leaseExpiresAt := None)
    {
      if id in rows {
        rows := rows[id := Unleased(rows[id]).(state := Pending, retryCount := 0, scheduledAt := now, errorMessage := None)];
      }
    }

    method PauseJob(id: JobId)
      modifies this
      ensures Snapshot() == Apply(old(Snapshot()), Pause(id))
      ensures rows.Keys == old(rows).Keys && forall i :: i in rows && i != id ==> rows[i] == old(rows)[i]
      ensures id in rows ==> rows[id] == old(rows)[id].(state := Paused, errorMessage := Some("Paused by user"),
        workerId := None, leasedAt := None, leaseExpiresAt := None)
    {
      if id in rows {
        rows := rows[id := Unleased(rows[id]).(state := Paused, errorMessage := Some("Paused by user"))];
      }
    }

    method IgnoreJob(id: JobId)
      modifies this
      ensures Snapshot() == Apply(old(Snapshot()), Ignore(id))
      ensures rows.Keys == old(rows).Keys && forall i :: i in rows && i != id ==> rows[i] == old(rows)[i]
      ensures id in rows ==> rows[id] == old(rows)[id].(state := Skipped,
        errorMessage := Some("Manually excluded by user"), workerId := None, leasedAt := None, leaseExpiresAt := None)
    {
      if id in rows {
        rows := rows[id := Unleased(rows[id]).(state := Skipped, errorMessage := Some("Manually excluded by user"))];
      }
    }

    method SetJobPriority(id: JobId, priority: int)
      modifies this
      ensures Snapshot() == Apply(old(Snapshot()), SetPriority(id, priority))
      ensures rows.Keys == old(rows).Keys && forall i :: i in rows && i != id ==> rows[i] == old(rows)[i]
      ensures id in rows && !old(rows)[id].state.Leased? ==> rows[id] == old(rows)[id].(priority := priority)
      ensures id in rows && old(rows)[id].state.Leased? ==>
        rows[id] == old(rows)[id].(priority := priority, state := Pending,
                                   workerId := None, leasedAt := None, leaseExpiresAt := None)
    {
      if id in rows {
        var r := rows[id].(priority := priority);
        rows := rows[id := if r.state.Leased? then Unleased(r).(state := Pending) else r];
      }
    }

    method DeleteJob(id: JobId)
      modifies this
      ensures Snapshot() == Apply(old(Snapshot()), Delete(id))
      ensures nextId == old(nextId) && rows.Keys == old(rows).Keys - {id}
      ensures forall i :: i in rows ==> rows[i] == old(rows)[i]
    {
      rows := rows - {id};
    }

    // Any one of the statements, as somebody else's transaction.
    method Execute(s: Stmt)
      modifies this
      ensures Snapshot() == Apply(old(Snapshot()), s)
    {
      match s {
        case Enqueue(path, p, at) => var _ := EnqueuePath(path, p, at);
        case Lease(ids, w, from, until) =>
          rows := map id | id in rows :: if id in ids then Claim(rows[id], w, from, until) else rows[id];
        case UpdateState(id, st, m) => UpdateJobState(id, st, m);
        case Backoff(id, at, m) => RequeueWithBackoff(id, 0, at, m);
        case Recover(at) => var _ := CrashRecovery(at);
        case ResetInFlight => var _ := ResetInFlightJobs();
        case Requeue(id, at) => RequeueJob(id, at);
        case Pause(id) => PauseJob(id);
        case Ignore(id) => IgnoreJob(id);
        case SetPriority(id, p) => SetJobPriority(id, p);
        case Delete(id) => DeleteJob(id);
      }
    }

    // SELECT state, COUNT(*) GROUP BY state, folded into the four reported counters.
    method GetQueueCounts() returns (c: QueueCounts)
      ensures c.pending == |Counted(rows, AsPending)|
      ensures c.leased == |Counted(rows, AsLeased)|
      ensures c.completed == |Counted(rows, AsCompleted)|
      ensures c.failed == |Counted(rows, AsFailed)|
      ensures c.pending + c.leased + c.completed + c.failed == |rows| - |AwaitingReview(rows)|
      ensures c.pending == |InStates(rows, {Pending})|
      ensures c.leased == |InStates(rows, {Leased, Processing, Evaluating, Transcoding})|
      ensures c.completed == |InStates(rows, {Completed, Skipped, Paused})|
      ensures c.failed == |InStates(rows, {Failed, QualityFailed, PermanentlyFailed})|
    {
      var pending, leased, completed, failed := 0, 0, 0, 0;
      var groups := set id | id in rows :: rows[id].state;
      var seen: set<JobState> := {};
      while groups != seen
        invariant seen <= groups
        invariant pending == |CountedIn(rows, seen, AsPending)|
        invariant leased == |CountedIn(rows, seen, AsLeased)|
        invariant completed == |CountedIn(rows, seen, AsCompleted)|
        invariant failed == |CountedIn(rows, seen, AsFailed)|
        decreases groups - seen
      {
        assert groups - seen != {};
        var state :| state in groups - seen;
        var count := |InState(rows, state)|;
        OneMoreGroup(rows, seen, state, AsPending);
        OneMoreGroup(rows, seen, state, AsLeased);
        OneMoreGroup(rows, seen, state, AsCompleted);
        OneMoreGroup(rows, seen, state, AsFailed);
        match CounterOf(state) {
          case AsPending => pending := pending + count;
          case AsLeased => leased := leased + count;
          case AsCompleted => completed := completed + count;
          case AsFailed => failed := failed + count;
          case Unreported =>
        }
        seen := seen + {state};
      }
      AllGroupsSeen(rows, AsPending);
      AllGroupsSeen(rows, AsLeased);
      AllGroupsSeen(rows, AsCompleted);
      AllGroupsSeen(rows, AsFailed);
      CountsConserved(rows);
      CountersInStates(rows);
      c := QueueCounts(pending, leased, completed, failed);
    }
  }

  // A correct answer, said of the rows' own numbers.
  lemma BatchInColumns(rows: map<JobId, Row>, now: int, limit: int, ids: seq<JobId>)
    requires IsBatch(rows, now, limit, ids)
    ensures forall i :: 0 <= i < |ids| ==>
      ids[i] in rows && rows[ids[i]].state.Pending? && rows[ids[i]].scheduledAt <= now
    ensures forall i, j :: 0 <= i < j < |ids| ==> ids[i] != ids[j] && Before(rows[ids[i]], rows[ids[j]])
    ensures forall e, i :: 0 <= i < |ids| && e in rows && e !in ids ==>
      (rows[e].state.Pending? && rows[e].scheduledAt <= now ==> Before(rows[ids[i]], rows[e]))
    ensures limit >= 0 ==> |ids| <= limit
    ensures |ids| != limit ==> forall e :: e in rows && e !in ids ==>
      !(rows[e].state.Pending? && rows[e].scheduledAt <= now)
  {
    var pool := Eligible(rows, now);
    forall i | 0 <= i < |ids|
      ensures ids[i] in rows && rows[ids[i]].state.Pending? && rows[ids[i]].scheduledAt <= now
    {
      var id := ids[i];
      assert id in pool && Due(rows[id], now);
    }
    if |ids| != limit {
      ShortBatchTakesAll(rows, now, limit, ids);
      forall e | e in rows && e !in ids
        ensures !(rows[e].state.Pending? && rows[e].scheduledAt <= now)
      {
        assert e !in Elements(ids);
      }
    }
  }

  lemma ShortBatchTakesAll(rows: map<JobId, Row>, now: int, limit: int, ids: seq<JobId>)
    requires IsBatch(rows, now, limit, ids) && |ids| != limit
    ensures Elements(ids) == Eligible(rows, now)
  {
    var pool := Eligible(rows, now);
    DistinctCount(ids);
    assert |ids| == |pool|;
    forall x | x in Elements(ids)
      ensures x in pool
    {
      var i :| 0 <= i < |ids| && ids[i] == x;
    }
    SameSizeSubset(Elements(ids), pool);
  }

  lemma SameSizeSubset(a: set<JobId>, b: set<JobId>)
    requires a <= b && |a| == |b|
    ensures a == b
  {
    assert b == a + (b - a);
  }

  function InState(rows: map<JobId, Row>, state: JobState): set<JobId> {
    set id | id in rows && rows[id].state == state
  }

  function InStates(rows: map<JobId, Row>, states: set<JobState>): set<JobId> {
    set id | id in rows && rows[id].state in states
  }

  lemma CountersInStates(rows: map<JobId, Row>)
    ensures Counted(rows, AsPending) == InStates(rows, {Pending})
    ensures Counted(rows, AsLeased) == InStates(rows, {Leased, Processing, Evaluating, Transcoding})
    ensures Counted(rows, AsCompleted) == InStates(rows, {Completed, Skipped, Paused})
    ensures Counted(rows, AsFailed) == InStates(rows, {Failed, QualityFailed, PermanentlyFailed})
  {
    CounterInStates(rows, AsPending, {Pending});
    CounterInStates(rows, AsLeased, {Leased, Processing, Evaluating, Transcoding});
    CounterInStates(rows, AsCompleted, {Completed, Skipped, Paused});
    CounterInStates(rows, AsFailed, {Failed, QualityFailed, PermanentlyFailed});
  }

  lemma CounterInStates(rows: map<JobId, Row>, k: Counter, states: set<JobState>)
    requires forall s: JobState :: CounterOf(s) == k <==> s in states
    ensures Counted(rows, k) == InStates(rows, states)
  {
    forall id | id in rows
      ensures id in Counted(rows, k) <==> id in InStates(rows, states)
    {
      assert CounterOf(rows[id].state) == k <==> rows[id].state in states;
    }
  }

  function CountedIn(rows: map<JobId, Row>, seen: set<JobState>, k: Counter): set<JobId> {
    set id | id in rows && CounterOf(rows[id].state) == k && rows[id].state in seen
  }

  lemma OneMoreGroup(rows: map<JobId, Row>, seen: set<JobState>, state: JobState, k: Counter)
    requires state !in seen
    ensures |CountedIn(rows, seen + {state}, k)|
            == |CountedIn(rows, seen, k)| + (if CounterOf(state) == k then |InState(rows, state)| else 0)
  {
    if CounterOf(state) == k {
      assert CountedIn(rows, seen + {state}, k) == CountedIn(rows, seen, k) + InState(rows, state);
      DisjointSizes(CountedIn(rows, seen, k), InState(rows, state));
    } else {
      assert CountedIn(rows, seen + {state}, k) == CountedIn(rows, seen, k);
    }
  }

  lemma AllGroupsSeen(rows: map<JobId, Row>, k: Counter)
    ensures CountedIn(rows, set id | id in rows :: rows[id].state, k) == Counted(rows, k)
  {
    var groups := set id | id in rows :: rows[id].state;
    forall id | id in Counted(rows, k)
      ensures id in CountedIn(rows, groups, k)
    {
      assert rows[id].state in groups;
    }
  }
}
