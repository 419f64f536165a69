// The queue_entries table and the statements that change it.
//
// Apply gives every write statement as a function of the whole table.
module QueueTable {
  import opened Wrappers

  // AUTOINCREMENT row ids.
  type JobId = int

  datatype JobState =
    | Pending | Leased | Evaluating | Transcoding | Processing | Completed | Skipped
    | Paused | Failed | QualityFailed | ReviewRequired | PermanentlyFailed

  datatype Row = Row(
    path: string,
    state: JobState,
    priority: int,
    retryCount: int,
    createdAt: int,
    scheduledAt: int,
    workerId: Option<string>,
    leasedAt: Option<int>,
    leaseExpiresAt: Option<int>,
    errorMessage: Option<string>)

  // nextId is the AUTOINCREMENT counter: the next id to hand out.
  datatype Table = Table(rows: map<JobId, Row>, nextId: JobId)

  const EMPTY: Table := Table(map[], 1)

  predicate InFlight(s: JobState) {
    s.Leased? || s.Processing? || s.Evaluating? || s.Transcoding?
  }

  // An in-flight row the lease monitor takes back: no lease, or one that has lapsed.
  predicate Stale(r: Row, now: int) {
    InFlight(r.state) && (r.leaseExpiresAt.None? || r.leaseExpiresAt.value <= now)
  }

  predicate PathTaken(rows: map<JobId, Row>, path: string) {
    exists id :: id in rows && rows[id].path == path
  }

  function Unleased(r: Row): Row {
    r.(workerId := None, leasedAt := None, leaseExpiresAt := None)
  }

  function Claim(r: Row, worker: string, from: int, until: int): Row {
    r.(state := Leased, workerId := Some(worker), leasedAt := Some(from), leaseExpiresAt := Some(until))
  }

  function FreshRow(path: string, priority: int, now: int): Row {
    Row(path, Pending, priority, 0, now, now, None, None, None, None)
  }

  // --- Statements ---

  datatype Stmt =
    | Enqueue(path: string, priority: int, at: int)
    | Lease(ids: seq<JobId>, worker: string, from: int, until: int)
    | UpdateState(id: JobId, state: JobState, message: string)
    | Backoff(id: JobId, resumeAt: int, message: string)
    | Recover(at: int)
    | ResetInFlight
    | Requeue(id: JobId, at: int)
    | Pause(id: JobId)
    | Ignore(id: JobId)
    | SetPriority(id: JobId, priority: int)
    | Delete(id: JobId)

  // What one statement does to one row it finds.
  function Change(id: JobId, r: Row, s: Stmt): Row {
    match s
    case Enqueue(_, _, _) => r
    case Lease(ids, w, from, until) =>
      if id in ids then Claim(r, w, from, until) else r
    case UpdateState(i, st, m) => if id == i then r.(state := st, errorMessage := Some(m)) else r
    case Backoff(i, at, m) =>
      if id == i
      then Unleased(r).(state := Pending, retryCount := r.retryCount + 1, scheduledAt := at, errorMessage := Some(m))
      else r
    case Recover(at) =>
      if Stale(r, at) then Unleased(r).(state := Pending, retryCount := r.retryCount + 1) else r
    case ResetInFlight => if InFlight(r.state) then Unleased(r).(state := Pending) else r
    case Requeue(i, at) =>
      if id == i
      then Unleased(r).(state := Pending, retryCount := 0, scheduledAt := at, errorMessage := None)
      else r
    case Pause(i) =>
      if id == i then Unleased(r).(state := Paused, errorMessage := Some("Paused by user")) else r
    case Ignore(i) =>
      if id == i then Unleased(r).(state := Skipped, errorMessage := Some("Manually excluded by user")) else r
    case SetPriority(i, p) =>
      if id != i then r
      else if r.state.Leased? then Unleased(r).(priority := p, state := Pending)
      else r.(priority := p)
    case Delete(_) => r
  }

  function Apply(t: Table, s: Stmt): Table {
    match s
    case Enqueue(path, p, at) =>
      if PathTaken(t.rows, path) then t
      else Table(t.rows[t.nextId := FreshRow(path, p, at)], t.nextId + 1)
    case Delete(i) => Table(t.rows - {i}, t.nextId)
    case _ => Table(map id | id in t.rows :: Change(id, t.rows[id], s), t.nextId)
  }

  function ApplyAll(t: Table, ss: seq<Stmt>): Table
    decreases |ss|
  {
    if ss == [] then t else ApplyAll(Apply(t, ss[0]), ss[1..])
  }

  // --- Invariant of every reachable table ---

  predicate LeaseColumnsAgree(r: Row) {
    (r.workerId.None? <==> r.leasedAt.None?) && (r.leasedAt.None? <==> r.leaseExpiresAt.None?)
  }

  predicate RowOk(r: Row) {
    && LeaseColumnsAgree(r)
    && (r.state.Pending? || r.state.Paused? ==> r.workerId.None?)
    && (r.state.Leased? ==> r.workerId.Some?)
  }

  ghost predicate Valid(t: Table) {
    && (forall id :: id in t.rows ==> 0 < id < t.nextId && RowOk(t.rows[id]))
    && (forall i, j :: i in t.rows && j in t.rows && t.rows[i].path == t.rows[j].path ==> i == j)
  }

  // The worker pool never writes these three through UpdateState; the statement itself would allow it.
  predicate Polite(s: Stmt) {
    s.UpdateState? ==> !s.state.Pending? && !s.state.Leased? && !s.state.Paused?
  }

  lemma ApplyKeepsValid(t: Table, s: Stmt)
    requires Valid(t) && 0 < t.nextId && Polite(s)
    ensures Valid(Apply(t, s)) && 0 < Apply(t, s).nextId
  {
    var u := Apply(t, s);
    forall id | id in u.rows
      ensures 0 < id < u.nextId && RowOk(u.rows[id])
    {
      if id in t.rows {
        assert RowOk(t.rows[id]);
      }
    }
    forall i, j | i in u.rows && j in u.rows && u.rows[i].path == u.rows[j].path
      ensures i == j
    {
      if i in t.rows && j in t.rows {
        assert u.rows[i].path == t.rows[i].path && u.rows[j].path == t.rows[j].path;
      }
    }
  }

  lemma {:induction false} RunKeepsValid(t: Table, ss: seq<Stmt>)
    requires Valid(t) && 0 < t.nextId && forall s :: s in ss ==> Polite(s)
    ensures Valid(ApplyAll(t, ss)) && 0 < ApplyAll(t, ss).nextId
    decreases |ss|
  {
    if ss != [] {
      assert ss[0] in ss;
      ApplyKeepsValid(t, ss[0]);
      RunKeepsValid(Apply(t, ss[0]), ss[1..]);
    }
  }

  // Every table reached from an empty database by the program's own statements.
  lemma ReachableTablesAreValid(ss: seq<Stmt>)
    requires forall s :: s in ss ==> Polite(s)
    ensures Valid(ApplyAll(EMPTY, ss))
  {
    RunKeepsValid(EMPTY, ss);
  }

  // UpdateState checks neither owner nor lease: it keeps the row's columns consistent exactly
  // when the state it writes fits the lease columns it leaves alone.
  lemma UpdateStateKeepsRowOkIff(t: Table, id: JobId, st: JobState, m: string)
    requires id in t.rows && RowOk(t.rows[id])
    ensures RowOk(Apply(t, UpdateState(id, st, m)).rows[id]) <==>
            (if t.rows[id].workerId.Some? then !st.Pending? && !st.Paused? else !st.Leased?)
  {
    var r := Apply(t, UpdateState(id, st, m)).rows[id];
    assert r == t.rows[id].(state := st, errorMessage := Some(m));
  }

  // Ids are never reused: one that was issued and is gone stays gone.
  lemma {:induction false} IdsNeverReused(t: Table, ss: seq<Stmt>, id: JobId)
    requires id < t.nextId && id !in t.rows
    ensures id < ApplyAll(t, ss).nextId && id !in ApplyAll(t, ss).rows
    decreases |ss|
  {
    if ss != [] {
      IdsNeverReused(Apply(t, ss[0]), ss[1..], id);
    }
  }

  // A path that is already queued, in whatever state, is not queued again.
  lemma EnqueueTwice(t: Table, path: string, p: int, q: int, at: int, later: int)
    ensures PathTaken(Apply(t, Enqueue(path, p, at)).rows, path)
    ensures Apply(Apply(t, Enqueue(path, p, at)), Enqueue(path, q, later)) == Apply(t, Enqueue(path, p, at))
  {
    var u := Apply(t, Enqueue(path, p, at));
    if !PathTaken(t.rows, path) {
      assert u.rows[t.nextId].path == path;
    }
  }

  // --- Recovery ---

  function StaleIds(rows: map<JobId, Row>, now: int): set<JobId> {
    set id | id in rows && Stale(rows[id], now)
  }

  // Recovery takes exactly the stale rows, leaves none behind, and does nothing the second time.
  lemma RecoverExactly(t: Table, now: int)
    ensures var u := Apply(t, Recover(now));
            && u.rows.Keys == t.rows.Keys
            && StaleIds(u.rows, now) == {}
            && (forall id :: id in t.rows && id !in StaleIds(t.rows, now) ==> u.rows[id] == t.rows[id])
            && (forall id :: id in StaleIds(t.rows, now) ==>
                  u.rows[id] == Unleased(t.rows[id]).(state := Pending, retryCount := t.rows[id].retryCount + 1))
            && Apply(u, Recover(now)) == u
  {
    var u := Apply(t, Recover(now));
    assert Apply(u, Recover(now)).rows == u.rows;
  }

  lemma ResetLeavesNothingInFlight(t: Table)
    ensures var u := Apply(t, ResetInFlight);
            && u.rows.Keys == t.rows.Keys
            && (forall id :: id in t.rows ==> !InFlight(u.rows[id].state))
            && (forall id :: id in t.rows ==> u.rows[id].retryCount == t.rows[id].retryCount)
            && Apply(u, ResetInFlight) == u
  {
    var u := Apply(t, ResetInFlight);
    assert Apply(u, ResetInFlight).rows == u.rows;
  }

  // The statements that can make an issued, non-pending entry pending again.
  predicate ReturnsToPending(r: Row, id: JobId, s: Stmt) {
    match s
    case UpdateState(i, st, _) => id == i && st.Pending?
    case Backoff(i, _, _) => id == i
    case Recover(at) => Stale(r, at)
    case ResetInFlight => InFlight(r.state)
    case Requeue(i, _) => id == i
    case SetPriority(i, _) => id == i && r.state.Leased?
    case _ => false
  }

  lemma PendingAgainIff(t: Table, s: Stmt, id: JobId)
    requires id < t.nextId && (id in t.rows ==> !t.rows[id].state.Pending?)
    ensures id in Apply(t, s).rows && Apply(t, s).rows[id].state.Pending? <==>
            id in t.rows && ReturnsToPending(t.rows[id], id, s)
    ensures id < Apply(t, s).nextId
  {
  }

  // --- Counts ---

  // Which reported counter a state goes to; paused rows are reported as completed, and a row
  // waiting for review is not reported at all.
  datatype Counter = AsPending | AsLeased | AsCompleted | AsFailed | Unreported

  function CounterOf(s: JobState): Counter {
    if s.Pending? then AsPending
    else if InFlight(s) then AsLeased
    else if s.Completed? || s.Skipped? || s.Paused? then AsCompleted
    else if s.Failed? || s.QualityFailed? || s.PermanentlyFailed? then AsFailed
    else Unreported
  }

  function Counted(rows: map<JobId, Row>, k: Counter): set<JobId> {
    set id | id in rows && CounterOf(rows[id].state) == k
  }

  function AwaitingReview(rows: map<JobId, Row>): set<JobId> {
    set id | id in rows && rows[id].state.ReviewRequired?
  }

  lemma DisjointSizes(a: set<JobId>, b: set<JobId>)
    requires a !! b
    ensures |a + b| == |a| + |b|
  {
  }

  lemma EveryRowHasACounter(rows: map<JobId, Row>)
    ensures Counted(rows, AsPending) + Counted(rows, AsLeased) + Counted(rows, AsCompleted) + Counted(rows, AsFailed)
            + Counted(rows, Unreported) == rows.Keys
  {
    forall id | id in rows
      ensures id in Counted(rows, CounterOf(rows[id].state))
    {
    }
  }

  lemma UnreportedAwaitReview(rows: map<JobId, Row>)
    ensures Counted(rows, Unreported) == AwaitingReview(rows)
  {
    forall id | id in rows
      ensures id in Counted(rows, Unreported) <==> id in AwaitingReview(rows)
    {
      assert CounterOf(rows[id].state) == Unreported <==> rows[id].state.ReviewRequired?;
    }
  }

  // The four reported counters miss exactly the rows waiting for review.
  lemma CountsConserved(rows: map<JobId, Row>)
    ensures |Counted(rows, AsPending)| + |Counted(rows, AsLeased)| + |Counted(rows, AsCompleted)|
            + |Counted(rows, AsFailed)| == |rows| - |AwaitingReview(rows)|
  {
    var p, l, c, f := Counted(rows, AsPending), Counted(rows, AsLeased), Counted(rows, AsCompleted), Counted(rows, AsFailed);
    DisjointSizes(p, l);
    DisjointSizes(p + l, c);
    DisjointSizes(p + l + c, f);
    DisjointSizes(p + l + c + f, Counted(rows, Unreported));
    EveryRowHasACounter(rows);
    UnreportedAwaitReview(rows);
    assert |rows.Keys| == |rows|;
  }
}
