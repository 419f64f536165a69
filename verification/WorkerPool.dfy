// The worker pool running on the queue table: every database write of a worker, the lease
// monitor, the startup reset and the operator commands as steps of one transition system.
//
// A worker is busy from the lease it takes until its last database write (or until it walks
// away from a cancelled job).  Which step comes next, how the wall clock moves, which write is
// lost and how each job ends are all left open.
module WorkerPool {
  import opened Wrappers
  import opened QueueTable
  import opened Leasing
  import opened Retry

  const LEASE_DURATION: int := 30 * 60 * 1_000_000_000

  datatype Stage = Fetched | Probing | Encoding

  datatype Worker =
    | Idle
    | Busy(id: JobId, retrySeen: nat, deadline: int, stage: Stage)

  // Workers are keyed by the name they write into worker_id.
  datatype Pool = Pool(table: Table, workers: map<string, Worker>, now: int)

  // `saved` is false when the write fails: the pool ignores the error and goes on.
  datatype Step =
    | Tick(to: int)
    | Poll(w: string, id: JobId)
    | Advance(w: string, saved: bool)
    | Finish(w: string, outcome: JobState, message: string, saved: bool)
    | Fail(w: string, crashed: bool, draw: Ratio, message: string, saved: bool)
    | WalkAway(w: string)
    | Insert(path: string, priority: int)
    | Monitor
    | StartupReset
    | OpRequeue(id: JobId)
    | OpPause(id: JobId)
    | OpIgnore(id: JobId)
    | OpPriority(id: JobId, priority: int)
    | OpDelete(id: JobId)

  predicate Has(p: Pool, w: string) { w in p.workers && p.workers[w].Busy? }

  predicate Active(p: Pool, id: JobId) {
    exists w :: w in p.workers && p.workers[w].Busy? && p.workers[w].id == id
  }

  // The states a job may end in at each stage: a _crunched name is skipped before probing, the
  // decision may skip, review or copy, and only an encode can fail its quality check.
  predicate MayFinish(s: Stage, outcome: JobState) {
    match s
    case Fetched => outcome.Skipped?
    case Probing => outcome.Skipped? || outcome.ReviewRequired? || outcome.Completed?
    case Encoding => outcome.Skipped? || outcome.QualityFailed? || outcome.Completed?
  }

  ghost predicate Enabled(p: Pool, s: Step) {
    match s
    case Poll(w, id) => w in p.workers && p.workers[w].Idle? && IsBatch(p.table.rows, p.now, 1, [id])
    case Advance(w, _) => Has(p, w) && !p.workers[w].stage.Encoding?
    case Finish(w, outcome, _, _) => Has(p, w) && MayFinish(p.workers[w].stage, outcome)
    case Fail(w, _, _, _, _) => Has(p, w) && !p.workers[w].stage.Fetched?
    case WalkAway(w) => Has(p, w)
    case _ => true
  }

  // handleFailure: a crash or an exhausted job is parked, anything else goes back with a delay.
  predicate Retries(c: RetryConfig, crashed: bool, retrySeen: nat) {
    !crashed && retrySeen < MaxRetries(c)
  }

  // The statement a step runs, if its write goes through.
  function StmtOf(c: RetryConfig, p: Pool, s: Step): Option<Stmt> {
    match s
    case Tick(_) => None
    case Poll(w, id) => Some(Lease([id], w, p.now, p.now + LEASE_DURATION))
    case Advance(w, saved) =>
      if !Has(p, w) || !saved then None
      else Some(UpdateState(p.workers[w].id, if p.workers[w].stage.Fetched? then Evaluating else Transcoding, ""))
    case Finish(w, outcome, m, saved) =>
      if !Has(p, w) || !saved then None else Some(UpdateState(p.workers[w].id, outcome, m))
    case Fail(w, crashed, draw, m, saved) =>
      if !Has(p, w) || !saved then None
      else
        var b := p.workers[w];
        if Retries(c, crashed, b.retrySeen)
        then Some(Backoff(b.id, p.now + Delay(c, b.retrySeen, draw), m))
        else Some(UpdateState(b.id, PermanentlyFailed, m))
    case WalkAway(_) => None
    case Insert(path, pr) => Some(Enqueue(path, pr, p.now))
    case Monitor => Some(Recover(p.now))
    case StartupReset => Some(ResetInFlight)
    case OpRequeue(id) => Some(Requeue(id, p.now))
    case OpPause(id) => Some(Pause(id))
    case OpIgnore(id) => Some(Ignore(id))
    case OpPriority(id, pr) => Some(SetPriority(id, pr))
    case OpDelete(id) => Some(Delete(id))
  }

  function NextTable(c: RetryConfig, p: Pool, s: Step): Table {
    match StmtOf(c, p, s)
    case None => p.table
    case Some(st) => Apply(p.table, st)
  }

  function NextWorkers(p: Pool, s: Step): map<string, Worker> {
    match s
    case Poll(w, id) =>
      var seen := if id in p.table.rows && p.table.rows[id].retryCount > 0 then p.table.rows[id].retryCount else 0;
      p.workers[w := Busy(id, seen, p.now + LEASE_DURATION, Fetched)]
    case Advance(w, _) =>
      if Has(p, w)
      then p.workers[w := p.workers[w].(stage := if p.workers[w].stage.Fetched? then Probing else Encoding)]
      else p.workers
    case Finish(w, _, _, _) => p.workers[w := Idle]
    case Fail(w, _, _, _, _) => p.workers[w := Idle]
    case WalkAway(w) => p.workers[w := Idle]
    case _ => p.workers
  }

  function Next(c: RetryConfig, p: Pool, s: Step): Pool {
    Pool(NextTable(c, p, s), NextWorkers(p, s), if s.Tick? then s.to else p.now)
  }

  ghost predicate IsRun(c: RetryConfig, p: Pool, ss: seq<Step>)
    decreases |ss|
  {
    ss == [] || (Enabled(p, ss[0]) && IsRun(c, Next(c, p, ss[0]), ss[1..]))
  }

  function After(c: RetryConfig, p: Pool, ss: seq<Step>): Pool
    decreases |ss|
  {
    if ss == [] then p else After(c, Next(c, p, ss[0]), ss[1..])
  }

  // A fresh process on an existing database: nobody is working yet.
  ghost predicate Fresh(p: Pool) {
    Valid(p.table) && 0 < p.table.nextId && forall w :: w in p.workers ==> p.workers[w].Idle?
  }

  // --- Worker exclusivity: the exact condition, step by step ---

  ghost predicate Exclusive(p: Pool) {
    forall v, w :: v != w && Has(p, v) && Has(p, w) ==> p.workers[v].id != p.workers[w].id
  }

  // No worker's entry can be leased again.
  ghost predicate Unclaimable(p: Pool) {
    forall w :: Has(p, w) ==>
      && p.workers[w].id < p.table.nextId
      && (p.workers[w].id in p.table.rows ==> !p.table.rows[p.workers[w].id].state.Pending?)
  }

  ghost predicate Safe(p: Pool) {
    Valid(p.table) && 0 < p.table.nextId && Exclusive(p) && Unclaimable(p)
  }

  // What each step must find so that no busy worker's entry goes back to pending.
  // Pausing, ignoring or deleting a busy worker's entry keeps others off that entry.  It does not
  // keep them off the file: see DeletedEntryComesBack.
  ghost predicate Guard(p: Pool, s: Step) {
    match s
    case Monitor =>
      forall w :: Has(p, w) && p.workers[w].id in p.table.rows ==> !Stale(p.table.rows[p.workers[w].id], p.now)
    case StartupReset =>
      forall w :: Has(p, w) && p.workers[w].id in p.table.rows ==> !InFlight(p.table.rows[p.workers[w].id].state)
    case OpRequeue(id) => id in p.table.rows ==> !Active(p, id)
    case OpPriority(id, _) => id in p.table.rows && p.table.rows[id].state.Leased? ==> !Active(p, id)
    case _ => true
  }

  lemma StepsArePolite(c: RetryConfig, p: Pool, s: Step)
    requires Enabled(p, s) && StmtOf(c, p, s).Some?
    ensures Polite(StmtOf(c, p, s).value)
  {
  }

  lemma StepKeepsTableValid(c: RetryConfig, p: Pool, s: Step)
    requires Enabled(p, s) && Valid(p.table) && 0 < p.table.nextId
    ensures Valid(NextTable(c, p, s)) && 0 < NextTable(c, p, s).nextId
  {
    if StmtOf(c, p, s).Some? {
      StepsArePolite(c, p, s);
      ApplyKeepsValid(p.table, StmtOf(c, p, s).value);
    }
  }

  lemma LeasedIdIsPending(p: Pool, w: string, id: JobId)
    requires Enabled(p, Poll(w, id))
    ensures id in p.table.rows && Due(p.table.rows[id], p.now)
  {
    assert [id][0] in Eligible(p.table.rows, p.now);
  }

  lemma StepKeepsExclusive(c: RetryConfig, p: Pool, s: Step)
    requires Safe(p) && Enabled(p, s)
    ensures Exclusive(Next(c, p, s))
  {
    var q := Next(c, p, s);
    if s.Poll? {
      LeasedIdIsPending(p, s.w, s.id);
    }
    forall v, w | v != w && Has(q, v) && Has(q, w)
      ensures q.workers[v].id != q.workers[w].id
    {
      assert (s.Poll? && v == s.w) || (Has(p, v) && p.workers[v].id == q.workers[v].id);
      assert (s.Poll? && w == s.w) || (Has(p, w) && p.workers[w].id == q.workers[w].id);
    }
  }

  lemma OneRowUnclaimable(c: RetryConfig, p: Pool, s: Step, w: string)
    requires Safe(p) && Enabled(p, s) && Has(Next(c, p, s), w)
    requires Guard(p, s)
    ensures var q := Next(c, p, s);
            && q.workers[w].id < q.table.nextId
            && (q.workers[w].id in q.table.rows ==> !q.table.rows[q.workers[w].id].state.Pending?)
  {
    var q := Next(c, p, s);
    var id := q.workers[w].id;
    if s.Poll? {
      LeasedIdIsPending(p, s.w, s.id);
    }
    if s.Poll? && w == s.w {
      assert q.table.rows[id].state.Leased?;
    } else {
      assert Has(p, w) && p.workers[w].id == id;
      if StmtOf(c, p, s).Some? {
        PendingAgainIff(p.table, StmtOf(c, p, s).value, id);
      }
      if s.Fail? {
        assert s.w != w && p.workers[s.w].id != id;
      }
    }
  }

  // The heart of the matter: a step keeps every busy worker's entry out of the pending state
  // exactly when its guard holds.
  lemma GuardIsExact(c: RetryConfig, p: Pool, s: Step)
    requires Safe(p) && Enabled(p, s)
    ensures Safe(Next(c, p, s)) <==> Guard(p, s)
  {
    var q := Next(c, p, s);
    StepKeepsTableValid(c, p, s);
    StepKeepsExclusive(c, p, s);
    if Guard(p, s) {
      forall w | Has(q, w)
        ensures && q.workers[w].id < q.table.nextId
                && (q.workers[w].id in q.table.rows ==> !q.table.rows[q.workers[w].id].state.Pending?)
      {
        OneRowUnclaimable(c, p, s, w);
      }
    } else {
      var w := GuardBreaker(p, s);
      assert Has(q, w) && q.workers[w].id == p.workers[w].id;
      assert q.table.rows[q.workers[w].id].state.Pending?;
    }
  }

  // The worker whose entry a guard-breaking step makes claimable.
  lemma GuardBreaker(p: Pool, s: Step) returns (w: string)
    requires !Guard(p, s)
    ensures Has(p, w) && p.workers[w].id in p.table.rows
    ensures var r := p.table.rows[p.workers[w].id];
            match s
            case Monitor => Stale(r, p.now)
            case StartupReset => InFlight(r.state)
            case OpRequeue(id) => id == p.workers[w].id
            case OpPriority(id, _) => id == p.workers[w].id && r.state.Leased?
            case _ => true
  {
    match s
    case Monitor =>
      w :| Has(p, w) && p.workers[w].id in p.table.rows && Stale(p.table.rows[p.workers[w].id], p.now);
    case StartupReset =>
      w :| Has(p, w) && p.workers[w].id in p.table.rows && InFlight(p.table.rows[p.workers[w].id].state);
    case OpRequeue(id) => w :| w in p.workers && p.workers[w].Busy? && p.workers[w].id == id;
    case OpPriority(id, _) => w :| w in p.workers && p.workers[w].Busy? && p.workers[w].id == id;
  }

  ghost predicate GuardedRun(c: RetryConfig, p: Pool, ss: seq<Step>)
    decreases |ss|
  {
    ss == [] || (Enabled(p, ss[0]) && Guard(p, ss[0]) && GuardedRun(c, Next(c, p, ss[0]), ss[1..]))
  }

  lemma FreshIsSafe(p: Pool)
    requires Fresh(p)
    ensures Safe(p)
  {
  }

  // Whole runs: at every point of a guarded run no two workers are busy on one entry.
  lemma {:induction false} GuardedRunsAreExclusive(c: RetryConfig, p: Pool, ss: seq<Step>, n: nat)
    requires Safe(p) && GuardedRun(c, p, ss) && n <= |ss|
    ensures Safe(After(c, p, ss[..n])) && Exclusive(After(c, p, ss[..n]))
    decreases |ss|
  {
    if n == 0 {
      assert ss[..n] == [];
    } else {
      GuardIsExact(c, p, ss[0]);
      GuardedRunsAreExclusive(c, Next(c, p, ss[0]), ss[1..], n - 1);
      assert ss[..n][0] == ss[0] && ss[..n][1..] == ss[1..][..n - 1];
    }
  }

  // --- The guard is needed: with a second, idle worker, breaking it leads to a double lease ---

  lemma SoleEligible(rows: map<JobId, Row>, now: int, id: JobId)
    requires Eligible(rows, now) == {id}
    ensures IsBatch(rows, now, 1, [id])
  {
    assert [id][0] == id;
  }

  lemma PollTwice(c: RetryConfig, p: Pool, w: string, idle: string, id: JobId)
    requires Has(p, w) && p.workers[w].id == id && idle in p.workers && p.workers[idle].Idle?
    requires Eligible(p.table.rows, p.now) == {id}
    ensures GuardedRun(c, p, [Poll(idle, id)])
    ensures !Exclusive(After(c, p, [Poll(idle, id)]))
  {
    SoleEligible(p.table.rows, p.now, id);
    var q := Next(c, p, Poll(idle, id));
    assert Has(q, idle) && Has(q, w) && q.workers[idle].id == q.workers[w].id;
    assert [Poll(idle, id)][1..] == [] && GuardedRun(c, q, []);
  }

  lemma GuardedCons(c: RetryConfig, p: Pool, s: Step, rest: seq<Step>)
    requires Enabled(p, s) && Guard(p, s) && GuardedRun(c, Next(c, p, s), rest)
    ensures GuardedRun(c, p, [s] + rest) && After(c, p, [s] + rest) == After(c, Next(c, p, s), rest)
  {
    assert ([s] + rest)[0] == s && ([s] + rest)[1..] == rest;
  }

  // The operator pauses every other due row, and the idle worker takes the one that is left.
  lemma {:induction false} PauseOthersThenPoll(c: RetryConfig, p: Pool, w: string, idle: string)
    returns (more: seq<Step>)
    requires Has(p, w) && p.workers[w].id in Eligible(p.table.rows, p.now)
    requires idle in p.workers && p.workers[idle].Idle?
    ensures GuardedRun(c, p, more) && !Exclusive(After(c, p, more))
    decreases |Eligible(p.table.rows, p.now)|
  {
    var id, due := p.workers[w].id, Eligible(p.table.rows, p.now);
    NoMembersMeansEmpty(due - {id});
    if due - {id} == {} {
      assert due == {id};
      PollTwice(c, p, w, idle, id);
      more := [Poll(idle, id)];
    } else {
      var other :| other in due - {id};
      var q := Next(c, p, OpPause(other));
      assert Eligible(q.table.rows, q.now) == due - {other};
      var rest := PauseOthersThenPoll(c, q, w, idle);
      GuardedCons(c, p, OpPause(other), rest);
      more := [OpPause(other)] + rest;
    }
  }

  lemma ClaimableLeadsToDoubleLease(c: RetryConfig, p: Pool, w: string, idle: string) returns (more: seq<Step>)
    requires Has(p, w) && p.workers[w].id in p.table.rows && p.table.rows[p.workers[w].id].state.Pending?
    requires idle in p.workers && p.workers[idle].Idle?
    ensures GuardedRun(c, p, more) && !Exclusive(After(c, p, more))
  {
    var due := p.table.rows[p.workers[w].id].scheduledAt;
    var tick := Tick(if p.now < due then due else p.now);
    var rest := PauseOthersThenPoll(c, Next(c, p, tick), w, idle);
    GuardedCons(c, p, tick, rest);
    more := [tick] + rest;
  }

  lemma BrokenGuardLeadsToDoubleLease(c: RetryConfig, p: Pool, s: Step, idle: string) returns (more: seq<Step>)
    requires Safe(p) && Enabled(p, s) && !Guard(p, s)
    requires idle in p.workers && p.workers[idle].Idle?
    ensures GuardedRun(c, Next(c, p, s), more)
    ensures !Exclusive(After(c, Next(c, p, s), more))
  {
    var w := GuardBreaker(p, s);
    more := ClaimableLeadsToDoubleLease(c, Next(c, p, s), w, idle);
  }

  // --- Such states are reached: runs from an empty database with two workers ---

  const FIRST: string := "worker-0"
  const SECOND: string := "worker-1"

  const TWO_WORKERS: Pool := Pool(EMPTY, map[FIRST := Idle, SECOND := Idle], 0)

  lemma TwoWorkersAreFresh()
    ensures Fresh(TWO_WORKERS)
  {
  }

  lemma RunCons(c: RetryConfig, p: Pool, s: Step, rest: seq<Step>)
    requires Enabled(p, s) && IsRun(c, Next(c, p, s), rest)
    ensures IsRun(c, p, [s] + rest) && After(c, p, [s] + rest) == After(c, Next(c, p, s), rest)
  {
    assert ([s] + rest)[0] == s && ([s] + rest)[1..] == rest;
  }

  // A fresh pool in which the first worker has leased the one file there is.
  function OneLeased(path: string): Pool {
    var row := Claim(FreshRow(path, 50, 0), FIRST, 0, LEASE_DURATION);
    Pool(Table(map[1 := row], 2), map[FIRST := Busy(1, 0, LEASE_DURATION, Fetched), SECOND := Idle], 0)
  }

  lemma OneRowIsNext(rows: map<JobId, Row>, now: int, id: JobId)
    requires rows.Keys == {id} && Due(rows[id], now)
    ensures IsBatch(rows, now, 1, [id])
  {
    assert Eligible(rows, now) == {id};
    SoleEligible(rows, now, id);
  }

  lemma FirstLeases(c: RetryConfig, path: string, rest: seq<Step>)
    requires IsRun(c, OneLeased(path), rest)
    ensures IsRun(c, TWO_WORKERS, [Insert(path, 50), Poll(FIRST, 1)] + rest)
    ensures After(c, TWO_WORKERS, [Insert(path, 50), Poll(FIRST, 1)] + rest) == After(c, OneLeased(path), rest)
  {
    var p := Next(c, TWO_WORKERS, Insert(path, 50));
    assert p.table.rows == map[1 := FreshRow(path, 50, 0)];
    OneRowIsNext(p.table.rows, 0, 1);
    var q := Next(c, p, Poll(FIRST, 1));
    assert q.table.rows == OneLeased(path).table.rows && q.workers == OneLeased(path).workers;
    RunCons(c, p, Poll(FIRST, 1), rest);
    RunCons(c, TWO_WORKERS, Insert(path, 50), [Poll(FIRST, 1)] + rest);
    assert [Insert(path, 50)] + ([Poll(FIRST, 1)] + rest) == [Insert(path, 50), Poll(FIRST, 1)] + rest;
  }

  // The second worker takes the row from under the first.
  lemma SecondTakes(c: RetryConfig, p: Pool)
    requires p.table.rows.Keys == {1} && Due(p.table.rows[1], p.now)
    requires Has(p, FIRST) && p.workers[FIRST].id == 1 && SECOND in p.workers && p.workers[SECOND].Idle?
    ensures IsRun(c, p, [Poll(SECOND, 1)]) && !Exclusive(After(c, p, [Poll(SECOND, 1)]))
  {
    OneRowIsNext(p.table.rows, p.now, 1);
    assert Eligible(p.table.rows, p.now) == {1};
    PollTwice(c, p, FIRST, SECOND, 1);
    assert [Poll(SECOND, 1)][1..] == [] && IsRun(c, Next(c, p, Poll(SECOND, 1)), []);
  }

  // An encode that outlasts its 30-minute lease: the monitor takes the row back, and the second
  // worker starts on the same file.
  lemma LongEncodeIsLeasedTwice(c: RetryConfig, path: string)
    ensures var ss := [Insert(path, 50), Poll(FIRST, 1)]
                      + [Advance(FIRST, true), Advance(FIRST, true), Tick(LEASE_DURATION), Monitor, Poll(SECOND, 1)];
            Fresh(TWO_WORKERS) && IsRun(c, TWO_WORKERS, ss) && !Exclusive(After(c, TWO_WORKERS, ss))
  {
    var p0 := OneLeased(path);
    var p1 := Next(c, p0, Advance(FIRST, true));
    var p2 := Next(c, p1, Advance(FIRST, true));
    var p3 := Next(c, p2, Tick(LEASE_DURATION));
    var p4 := Next(c, p3, Monitor);
    SecondTakes(c, p4);
    var poll := [Poll(SECOND, 1)];
    RunCons(c, p3, Monitor, poll);
    RunCons(c, p2, Tick(LEASE_DURATION), [Monitor] + poll);
    RunCons(c, p1, Advance(FIRST, true), [Tick(LEASE_DURATION)] + ([Monitor] + poll));
    RunCons(c, p0, Advance(FIRST, true), [Advance(FIRST, true)] + ([Tick(LEASE_DURATION)] + ([Monitor] + poll)));
    var rest := [Advance(FIRST, true), Advance(FIRST, true), Tick(LEASE_DURATION), Monitor, Poll(SECOND, 1)];
    assert [Advance(FIRST, true)] + ([Advance(FIRST, true)] + ([Tick(LEASE_DURATION)] + ([Monitor] + poll))) == rest;
    FirstLeases(c, path, rest);
    TwoWorkersAreFresh();
  }

  // That lease is good for thirty minutes to the nanosecond.
  lemma LeaseLastsThirtyMinutes(path: string, now: int)
    ensures Guard(OneLeased(path).(now := now), Monitor) <==> now < 30 * 60 * 1_000_000_000
  {
    var p := OneLeased(path).(now := now);
    assert Has(p, FIRST) && p.workers[FIRST].id == 1;
    assert Stale(p.table.rows[1], now) <==> 30 * 60 * 1_000_000_000 <= now;
  }

  // An operator raises the priority of a job that has just been leased, within the range the
  // server accepts, or queues it again.
  lemma OperatorGivesItAwayTwice(c: RetryConfig, path: string, op: Step)
    requires op == OpRequeue(1) || (op.OpPriority? && op.id == 1 && 1 <= op.priority <= 1000)
    ensures var ss := [Insert(path, 50), Poll(FIRST, 1)] + [op, Poll(SECOND, 1)];
            IsRun(c, TWO_WORKERS, ss) && !Exclusive(After(c, TWO_WORKERS, ss))
  {
    var q := Next(c, OneLeased(path), op);
    SecondTakes(c, q);
    RunCons(c, OneLeased(path), op, [Poll(SECOND, 1)]);
    assert [op] + [Poll(SECOND, 1)] == [op, Poll(SECOND, 1)];
    FirstLeases(c, path, [op, Poll(SECOND, 1)]);
  }

  // --- The discipline the program relies on ---

  // Busy workers are inside their lease when the monitor runs, nobody is busy at a startup
  // reset, and operators leave busy workers' entries alone.
  ghost predicate Disciplined(p: Pool, s: Step) {
    match s
    case Monitor => forall w :: Has(p, w) ==> p.now < p.workers[w].deadline
    case StartupReset => forall w :: !Has(p, w)
    case OpRequeue(id) => !Active(p, id)
    case OpPause(id) => !Active(p, id)
    case OpIgnore(id) => !Active(p, id)
    case OpPriority(id, _) => !Active(p, id)
    case OpDelete(id) => !Active(p, id)
    case _ => true
  }

  // Each busy worker's entry is in flight under that worker's own lease, although no statement
  // after the lease checks the owner.
  ghost predicate Owns(p: Pool, w: string)
    requires Has(p, w)
  {
    var b := p.workers[w];
    && b.id in p.table.rows
    && InFlight(p.table.rows[b.id].state)
    && p.table.rows[b.id].workerId == Some(w)
    && p.table.rows[b.id].leaseExpiresAt == Some(b.deadline)
  }

  ghost predicate Owned(p: Pool) {
    Valid(p.table) && 0 < p.table.nextId && forall w :: Has(p, w) ==> Owns(p, w)
  }

  lemma OwnedIsSafe(p: Pool)
    requires Owned(p)
    ensures Safe(p)
  {
    forall v, w | v != w && Has(p, v) && Has(p, w)
      ensures p.workers[v].id != p.workers[w].id
    {
      assert Owns(p, v) && Owns(p, w);
    }
    forall w | Has(p, w)
      ensures p.workers[w].id < p.table.nextId && !p.table.rows[p.workers[w].id].state.Pending?
    {
      assert Owns(p, w);
    }
  }

  predicate StepOf(s: Step, w: string) {
    match s
    case Poll(v, _) => v == w
    case Advance(v, _) => v == w
    case Finish(v, _, _, _) => v == w
    case Fail(v, _, _, _, _) => v == w
    case WalkAway(v) => v == w
    case _ => false
  }

  // Nobody else's disciplined step changes a busy worker's row.
  lemma RowUntouched(c: RetryConfig, p: Pool, s: Step, w: string)
    requires Owned(p) && Enabled(p, s) && Disciplined(p, s) && Has(p, w) && !StepOf(s, w)
    ensures var id := p.workers[w].id;
            id in NextTable(c, p, s).rows && NextTable(c, p, s).rows[id] == p.table.rows[id]
  {
    assert Owns(p, w);
    if s.Poll? {
      LeasedIdIsPending(p, s.w, s.id);
    } else if (s.Advance? || s.Finish? || s.Fail?) {
      assert Owns(p, s.w);
    }
  }

  lemma KeepsOwner(c: RetryConfig, p: Pool, s: Step, w: string)
    requires Owned(p) && Enabled(p, s) && Disciplined(p, s) && Has(Next(c, p, s), w)
    ensures Owns(Next(c, p, s), w)
  {
    if !StepOf(s, w) {
      RowUntouched(c, p, s, w);
      assert Owns(p, w);
    } else if s.Poll? {
      LeasedIdIsPending(p, w, s.id);
    } else {
      assert s.Advance? && Owns(p, w);
    }
  }

  lemma DisciplinedKeepsOwned(c: RetryConfig, p: Pool, s: Step)
    requires Owned(p) && Enabled(p, s) && Disciplined(p, s)
    ensures Owned(Next(c, p, s))
  {
    StepKeepsTableValid(c, p, s);
    forall w | Has(Next(c, p, s), w)
      ensures Owns(Next(c, p, s), w)
    {
      KeepsOwner(c, p, s, w);
    }
  }

  lemma DisciplinedIsGuarded(p: Pool, s: Step)
    requires Owned(p) && Enabled(p, s) && Disciplined(p, s)
    ensures Guard(p, s)
  {
    forall w | Has(p, w)
      ensures Owns(p, w)
    {
    }
  }

  ghost predicate DisciplinedRun(c: RetryConfig, p: Pool, ss: seq<Step>)
    decreases |ss|
  {
    ss == [] || (Enabled(p, ss[0]) && Disciplined(p, ss[0]) && DisciplinedRun(c, Next(c, p, ss[0]), ss[1..]))
  }

  lemma {:induction false} DisciplinedRunsKeepOwners(c: RetryConfig, p: Pool, ss: seq<Step>, n: nat)
    requires Owned(p) && DisciplinedRun(c, p, ss) && n <= |ss|
    ensures Owned(After(c, p, ss[..n]))
    decreases |ss|
  {
    if n == 0 {
      assert ss[..n] == [];
    } else {
      DisciplinedKeepsOwned(c, p, ss[0]);
      DisciplinedRunsKeepOwners(c, Next(c, p, ss[0]), ss[1..], n - 1);
      assert ss[..n][0] == ss[0] && ss[..n][1..] == ss[1..][..n - 1];
    }
  }

  // Worker exclusivity as the pool intends it: with any number of workers, from a fresh start,
  // at every point of a disciplined run.
  lemma WorkersNeverShareAnEntry(c: RetryConfig, p: Pool, ss: seq<Step>, n: nat)
    requires Fresh(p) && DisciplinedRun(c, p, ss) && n <= |ss|
    ensures Exclusive(After(c, p, ss[..n]))
    ensures forall w :: Has(After(c, p, ss[..n]), w) ==> Owns(After(c, p, ss[..n]), w)
    ensures FilesApart(After(c, p, ss[..n]))
  {
    DisciplinedRunsKeepOwners(c, p, ss, n);
    OwnedIsSafe(After(c, p, ss[..n]));
    OwnersHaveOwnFiles(After(c, p, ss[..n]));
  }

  // No two busy workers' rows name the same file.
  ghost predicate FilesApart(p: Pool) {
    forall v, w :: v != w && Has(p, v) && Has(p, w) ==>
      && p.workers[v].id in p.table.rows && p.workers[w].id in p.table.rows
      && p.table.rows[p.workers[v].id].path != p.table.rows[p.workers[w].id].path
  }

  lemma OwnersHaveOwnFiles(p: Pool)
    requires Owned(p)
    ensures FilesApart(p)
  {
    OwnedIsSafe(p);
    forall v, w | v != w && Has(p, v) && Has(p, w)
      ensures && p.workers[v].id in p.table.rows && p.workers[w].id in p.table.rows
              && p.table.rows[p.workers[v].id].path != p.table.rows[p.workers[w].id].path
    {
      assert Owns(p, v) && Owns(p, w);
    }
  }

  // Guarded but not disciplined: the operator deletes the row of a busy worker, the scanner queues
  // the file again, and the second worker works on it under another id.
  lemma DeletedEntryComesBack(c: RetryConfig, path: string)
    ensures var p := OneLeased(path);
            var ss := [OpDelete(1), Insert(path, 50), Poll(SECOND, 2)];
            var q := After(c, p, ss);
            && GuardedRun(c, p, ss)
            && p.table.rows[1].path == path && Has(q, FIRST) && q.workers[FIRST].id == 1
            && 2 in q.table.rows && q.table.rows[2].path == path && Has(q, SECOND) && q.workers[SECOND].id == 2
  {
    var p0 := OneLeased(path);
    var p1 := Next(c, p0, OpDelete(1));
    assert p1.table.rows == map[];
    var p2 := Next(c, p1, Insert(path, 50));
    assert p2.table.rows == map[2 := FreshRow(path, 50, 0)];
    OneRowIsNext(p2.table.rows, 0, 2);
    var p3 := Next(c, p2, Poll(SECOND, 2));
    assert GuardedRun(c, p3, []);
    GuardedCons(c, p2, Poll(SECOND, 2), []);
    GuardedCons(c, p1, Insert(path, 50), [Poll(SECOND, 2)] + []);
    GuardedCons(c, p0, OpDelete(1), [Insert(path, 50)] + ([Poll(SECOND, 2)] + []));
    assert [OpDelete(1)] + ([Insert(path, 50)] + ([Poll(SECOND, 2)] + []))
        == [OpDelete(1), Insert(path, 50), Poll(SECOND, 2)];
  }
}
