// How often a job is tried, how long it waits, and why the pool runs out of work.
//
// A calm run has no lease lapse, no restart and no operator command; everything else about it
// (which worker, which job, how each attempt ends, which writes are lost) is open.
module Attempts {
  import opened Wrappers
  import opened QueueTable
  import opened Retry
  import opened WorkerPool

  ghost predicate Calm(p: Pool, s: Step) {
    match s
    case Monitor => StaleIds(p.table.rows, p.now) == {}
    case StartupReset | OpRequeue(_) | OpPause(_) | OpIgnore(_) | OpPriority(_, _) | OpDelete(_) => false
    case _ => true
  }

  ghost predicate CalmRun(c: RetryConfig, p: Pool, ss: seq<Step>)
    decreases |ss|
  {
    ss == [] || (Enabled(p, ss[0]) && Calm(p, ss[0]) && CalmRun(c, Next(c, p, ss[0]), ss[1..]))
  }

  // What a busy worker remembers is still what its row says.
  ghost predicate InStep(p: Pool, w: string)
    requires Has(p, w)
  {
    var b := p.workers[w];
    && b.id in p.table.rows
    && InFlight(p.table.rows[b.id].state)
    && p.table.rows[b.id].workerId == Some(w)
    && p.table.rows[b.id].retryCount == b.retrySeen
  }

  ghost predicate Sound(p: Pool) {
    && Valid(p.table) && 0 < p.table.nextId
    && (forall id :: id in p.table.rows ==> 0 <= p.table.rows[id].retryCount)
    && (forall w :: Has(p, w) ==> InStep(p, w))
  }

  ghost predicate Bounded(c: RetryConfig, p: Pool) {
    Sound(p) && forall id :: id in p.table.rows ==> p.table.rows[id].retryCount <= MaxRetries(c)
  }

  // In a calm run every statement concerns one entry, and this is the one.
  function Target(p: Pool, s: Step): Option<JobId> {
    match s
    case Poll(_, id) => Some(id)
    case Advance(w, saved) => if Has(p, w) && saved then Some(p.workers[w].id) else None
    case Finish(w, _, _, saved) => if Has(p, w) && saved then Some(p.workers[w].id) else None
    case Fail(w, _, _, _, saved) => if Has(p, w) && saved then Some(p.workers[w].id) else None
    case Insert(path, _) => if PathTaken(p.table.rows, path) then None else Some(p.table.nextId)
    case _ => None
  }

  // The row a calm step leaves at its target.
  ghost predicate TargetRow(c: RetryConfig, p: Pool, s: Step, id: JobId, r: Row) {
    match s
    case Poll(w, _) =>
      id in p.table.rows && p.table.rows[id].state.Pending? && r == Claim(p.table.rows[id], w, p.now, p.now + LEASE_DURATION)
    case Advance(_, _) =>
      && id in p.table.rows && InFlight(p.table.rows[id].state)
      && InFlight(r.state) && r.retryCount == p.table.rows[id].retryCount && r.workerId == p.table.rows[id].workerId
    case Finish(_, outcome, _, _) =>
      && id in p.table.rows && InFlight(p.table.rows[id].state)
      && r.state == outcome && r.retryCount == p.table.rows[id].retryCount
    case Fail(_, crashed, draw, _, _) =>
      && id in p.table.rows && InFlight(p.table.rows[id].state)
      && var n := p.table.rows[id].retryCount;
         if 0 <= n && Retries(c, crashed, n)
         then r.state.Pending? && r.retryCount == n + 1 && r.scheduledAt == p.now + Delay(c, n, draw)
         else r.state.PermanentlyFailed? && r.retryCount == n
    case Insert(_, _) => id !in p.table.rows && r.state.Pending? && r.retryCount == 0
    case _ => false
  }

  lemma OnlyOneRowChanges(t: Table, st: Stmt, id: JobId)
    requires id in t.rows
    requires (st.UpdateState? && st.id == id) || (st.Backoff? && st.id == id) || (st.Lease? && st.ids == [id])
    ensures Apply(t, st).rows == t.rows[id := Change(id, t.rows[id], st)]
  {
  }

  ghost predicate StepShape(c: RetryConfig, p: Pool, s: Step) {
    match Target(p, s)
    case None => NextTable(c, p, s) == p.table
    case Some(id) =>
      && NextTable(c, p, s).rows.Keys == p.table.rows.Keys + {id}
      && (forall i :: i in p.table.rows && i != id ==> NextTable(c, p, s).rows[i] == p.table.rows[i])
      && TargetRow(c, p, s, id, NextTable(c, p, s).rows[id])
  }

  lemma PollShape(c: RetryConfig, p: Pool, s: Step)
    requires Sound(p) && Enabled(p, s) && s.Poll?
    ensures StepShape(c, p, s)
  {
    LeasedIdIsPending(p, s.w, s.id);
    OnlyOneRowChanges(p.table, StmtOf(c, p, s).value, s.id);
  }

  lemma FinishShape(c: RetryConfig, p: Pool, s: Step)
    requires Sound(p) && Enabled(p, s) && (s.Finish? || s.Advance?)
    ensures StepShape(c, p, s)
  {
    assert InStep(p, s.w);
    if s.saved {
      OnlyOneRowChanges(p.table, StmtOf(c, p, s).value, p.workers[s.w].id);
    }
  }

  lemma FailShape(c: RetryConfig, p: Pool, s: Step)
    requires Sound(p) && Enabled(p, s) && s.Fail?
    ensures StepShape(c, p, s)
  {
    assert InStep(p, s.w);
    if s.saved {
      OnlyOneRowChanges(p.table, StmtOf(c, p, s).value, p.workers[s.w].id);
    }
  }

  lemma CalmStepShape(c: RetryConfig, p: Pool, s: Step)
    requires Sound(p) && Enabled(p, s) && Calm(p, s)
    ensures StepShape(c, p, s)
  {
    match s
    case Poll(_, _) => PollShape(c, p, s);
    case Advance(_, _) => FinishShape(c, p, s);
    case Finish(_, _, _, _) => FinishShape(c, p, s);
    case Fail(_, _, _, _, _) => FailShape(c, p, s);
    case Monitor =>
      RecoverExactly(p.table, p.now);
      assert NextTable(c, p, s).rows == p.table.rows;
    case _ =>
  }

  lemma CalmKeepsInStep(c: RetryConfig, p: Pool, s: Step, w: string)
    requires Sound(p) && Enabled(p, s) && Calm(p, s) && Has(Next(c, p, s), w)
    ensures InStep(Next(c, p, s), w)
  {
    CalmStepShape(c, p, s);
    if s.Poll? && s.w == w {
      LeasedIdIsPending(p, w, s.id);
      assert 0 <= p.table.rows[s.id].retryCount;
    } else {
      assert Has(p, w) && p.workers[w].id == Next(c, p, s).workers[w].id && InStep(p, w);
      if s.Poll? {
        LeasedIdIsPending(p, s.w, s.id);
      } else if Target(p, s) == Some(p.workers[w].id) && (s.Finish? || s.Fail? || s.Advance?) {
        assert InStep(p, s.w);
      }
    }
  }

  lemma CalmKeepsSound(c: RetryConfig, p: Pool, s: Step)
    requires Sound(p) && Enabled(p, s) && Calm(p, s)
    ensures Sound(Next(c, p, s))
  {
    StepKeepsTableValid(c, p, s);
    CalmStepShape(c, p, s);
    forall w | Has(Next(c, p, s), w)
      ensures InStep(Next(c, p, s), w)
    {
      CalmKeepsInStep(c, p, s, w);
    }
  }

  // retry_count never exceeds the configured number of attempts.
  lemma CalmKeepsBounded(c: RetryConfig, p: Pool, s: Step)
    requires Bounded(c, p) && Enabled(p, s) && Calm(p, s)
    ensures Bounded(c, Next(c, p, s))
  {
    CalmKeepsSound(c, p, s);
    CalmStepShape(c, p, s);
  }

  lemma {:induction false} CalmRunKeepsBounded(c: RetryConfig, p: Pool, ss: seq<Step>)
    requires Bounded(c, p) && CalmRun(c, p, ss)
    ensures Bounded(c, After(c, p, ss))
    decreases |ss|
  {
    if ss != [] {
      CalmKeepsBounded(c, p, ss[0]);
      CalmRunKeepsBounded(c, Next(c, p, ss[0]), ss[1..]);
    }
  }

  // --- Attempts at one job ---

  function LeasesOf(ss: seq<Step>, id: JobId): nat {
    if ss == [] then 0 else (if ss[0].Poll? && ss[0].id == id then 1 else 0) + LeasesOf(ss[1..], id)
  }

  // The delay a step requests for one job, if it requests one.
  function DelayOf(c: RetryConfig, p: Pool, s: Step, id: JobId): seq<int> {
    if s.Fail? && Target(p, s) == Some(id) && Retries(c, s.crashed, p.workers[s.w].retrySeen)
    then [Delay(c, p.workers[s.w].retrySeen, s.draw)]
    else []
  }

  // The delays requested for one job, in order.
  function DelaysOf(c: RetryConfig, p: Pool, ss: seq<Step>, id: JobId): seq<int>
    decreases |ss|
  {
    if ss == [] then [] else DelayOf(c, p, ss[0], id) + DelaysOf(c, Next(c, p, ss[0]), ss[1..], id)
  }

  // The attempts a row has used, as the table itself shows them.
  function Used(p: Pool, id: JobId): int {
    if id !in p.table.rows then 0
    else if p.table.rows[id].state.Pending? then p.table.rows[id].retryCount
    else p.table.rows[id].retryCount + 1
  }

  function RetriesOf(p: Pool, id: JobId): int {
    if id in p.table.rows then p.table.rows[id].retryCount else 0
  }

  lemma OneStepUses(c: RetryConfig, p: Pool, s: Step, id: JobId)
    requires Sound(p) && Enabled(p, s) && Calm(p, s)
    ensures Used(Next(c, p, s), id) == Used(p, id) + LeasesOf([s], id)
  {
    CalmStepShape(c, p, s);
    assert [s][1..] == [];
    if s.Poll? {
      LeasedIdIsPending(p, s.w, s.id);
    }
  }

  lemma {:induction false} LeasesAreUsed(c: RetryConfig, p: Pool, ss: seq<Step>, id: JobId)
    requires Bounded(c, p) && CalmRun(c, p, ss)
    ensures Used(After(c, p, ss), id) == Used(p, id) + LeasesOf(ss, id)
    decreases |ss|
  {
    if ss != [] {
      OneStepUses(c, p, ss[0], id);
      assert [ss[0]][1..] == [];
      CalmKeepsBounded(c, p, ss[0]);
      LeasesAreUsed(c, Next(c, p, ss[0]), ss[1..], id);
    }
  }

  // A job is leased at most M + 1 times.
  lemma AttemptsAreBounded(c: RetryConfig, p: Pool, ss: seq<Step>, id: JobId)
    requires Bounded(c, p) && CalmRun(c, p, ss)
    ensures LeasesOf(ss, id) <= MaxRetries(c) + 1
    ensures id in After(c, p, ss).table.rows ==> After(c, p, ss).table.rows[id].retryCount <= MaxRetries(c)
  {
    LeasesAreUsed(c, p, ss, id);
    CalmRunKeepsBounded(c, p, ss);
  }

  // No attempt at this job ends in a crash.
  predicate NoCrashOf(c: RetryConfig, p: Pool, ss: seq<Step>, id: JobId)
    decreases |ss|
  {
    ss == [] ||
    ((ss[0].Fail? && Target(p, ss[0]) == Some(id) ==> !ss[0].crashed) && NoCrashOf(c, Next(c, p, ss[0]), ss[1..], id))
  }

  // A job is parked only with its retries used up.
  predicate ParkedAtLimit(c: RetryConfig, p: Pool, id: JobId) {
    id in p.table.rows && p.table.rows[id].state.PermanentlyFailed? ==> p.table.rows[id].retryCount == MaxRetries(c)
  }

  lemma {:induction false} RunKeepsParkedAtLimit(c: RetryConfig, p: Pool, ss: seq<Step>, id: JobId)
    requires Bounded(c, p) && CalmRun(c, p, ss) && NoCrashOf(c, p, ss, id) && ParkedAtLimit(c, p, id)
    ensures ParkedAtLimit(c, After(c, p, ss), id)
    decreases |ss|
  {
    if ss != [] {
      CalmStepShape(c, p, ss[0]);
      CalmKeepsBounded(c, p, ss[0]);
      RunKeepsParkedAtLimit(c, Next(c, p, ss[0]), ss[1..], id);
    }
  }

  // A job queued during the run that fails until it is parked, never by a crash, is leased exactly
  // once more than the configured attempts.
  lemma ParkedAfterAllAttempts(c: RetryConfig, p: Pool, ss: seq<Step>, id: JobId)
    requires Bounded(c, p) && CalmRun(c, p, ss) && id !in p.table.rows && NoCrashOf(c, p, ss, id)
    requires id in After(c, p, ss).table.rows && After(c, p, ss).table.rows[id].state.PermanentlyFailed?
    ensures LeasesOf(ss, id) == (if c.maxAttempts <= 0 then 3 else c.maxAttempts) + 1
    ensures |DelaysOf(c, p, ss, id)| == (if c.maxAttempts <= 0 then 3 else c.maxAttempts)
  {
    RunKeepsParkedAtLimit(c, p, ss, id);
    LeasesAreUsed(c, p, ss, id);
    DelaysMatchRetries(c, p, ss, id);
  }

  lemma OneStepDelay(c: RetryConfig, p: Pool, s: Step, id: JobId)
    requires Bounded(c, p) && Enabled(p, s) && Calm(p, s)
    ensures RetriesOf(p, id) >= 0
    ensures DelaysInBand(c, RetriesOf(p, id), DelayOf(c, p, s, id))
    ensures RetriesOf(Next(c, p, s), id) == RetriesOf(p, id) + |DelayOf(c, p, s, id)|
  {
    CalmStepShape(c, p, s);
    if s.Fail? {
      assert InStep(p, s.w);
      DelayInBand(c, p.workers[s.w].retrySeen, s.draw);
    }
  }

  lemma BandsConcatenate(c: RetryConfig, from: nat, a: seq<int>, b: seq<int>)
    requires DelaysInBand(c, from, a) && DelaysInBand(c, from + |a|, b)
    ensures DelaysInBand(c, from, a + b)
  {
    forall i | 0 <= i < |a + b|
      ensures InBand(c, from + i, (a + b)[i])
    {
      if i >= |a| {
        assert InBand(c, from + |a| + (i - |a|), b[i - |a|]);
      }
    }
  }

  lemma {:induction false} DelaysMatchRetries(c: RetryConfig, p: Pool, ss: seq<Step>, id: JobId)
    requires Bounded(c, p) && CalmRun(c, p, ss)
    ensures RetriesOf(p, id) >= 0
    ensures DelaysInBand(c, RetriesOf(p, id), DelaysOf(c, p, ss, id))
    ensures RetriesOf(After(c, p, ss), id) == RetriesOf(p, id) + |DelaysOf(c, p, ss, id)|
    decreases |ss|
  {
    if ss != [] {
      var q := Next(c, p, ss[0]);
      CalmKeepsBounded(c, p, ss[0]);
      OneStepDelay(c, p, ss[0], id);
      DelaysMatchRetries(c, q, ss[1..], id);
      BandsConcatenate(c, RetriesOf(p, id), DelayOf(c, p, ss[0], id), DelaysOf(c, q, ss[1..], id));
    }
  }

  // For a job that was queued during the run: at most M requeues, each asking for a longer
  // delay than the one before, and all together between base * (2^n - 1) and 1.2 times that.
  lemma WaitIsBounded(c: RetryConfig, p: Pool, ss: seq<Step>, id: JobId)
    requires Bounded(c, p) && CalmRun(c, p, ss) && id !in p.table.rows
    ensures var ds := DelaysOf(c, p, ss, id);
            && |ds| <= MaxRetries(c)
            && (forall i :: 0 <= i && i + 1 < |ds| ==> ds[i] < ds[i + 1])
            && Base(c) * (Pow2(|ds|) - 1) <= Sum(ds)
            && 5 * Sum(ds) <= 6 * (Base(c) * (Pow2(|ds|) - 1))
  {
    var ds := DelaysOf(c, p, ss, id);
    DelaysMatchRetries(c, p, ss, id);
    CalmRunKeepsBounded(c, p, ss);
    forall i | 0 <= i && i + 1 < |ds|
      ensures ds[i] < ds[i + 1]
    {
      EachLongerThanTheLast(c, 0, ds, i);
    }
    TotalWait(c, ds);
  }

  // --- The measure ---

  // Twice the attempts left, one less while an attempt is under way, nothing once it is over.
  function Weight(c: RetryConfig, r: Row): int {
    if r.state.Pending? then 2 * (MaxRetries(c) - r.retryCount) + 2
    else if InFlight(r.state) then 2 * (MaxRetries(c) - r.retryCount) + 1
    else 0
  }

  // The sum over the ids below n; ids are handed out from 1 up.
  function Work(c: RetryConfig, rows: map<JobId, Row>, n: nat): int {
    if n == 0 then 0
    else Work(c, rows, n - 1) + (if n - 1 in rows then Weight(c, rows[n - 1]) else 0)
  }

  function TotalWork(c: RetryConfig, p: Pool): int
    requires 0 < p.table.nextId
  {
    Work(c, p.table.rows, p.table.nextId)
  }

  lemma {:induction false} WorkNonNegative(c: RetryConfig, rows: map<JobId, Row>, n: nat)
    requires forall id :: id in rows ==> rows[id].retryCount <= MaxRetries(c)
    ensures 0 <= Work(c, rows, n)
  {
    if n > 0 {
      WorkNonNegative(c, rows, n - 1);
    }
  }

  // Changing one row changes the sum by that row's difference.
  lemma {:induction false} WorkChangesAt(c: RetryConfig, a: map<JobId, Row>, b: map<JobId, Row>, id: JobId, n: nat)
    requires id in b && b.Keys == a.Keys + {id}
    requires forall i :: i in a && i != id ==> b[i] == a[i]
    ensures Work(c, b, n) == Work(c, a, n)
            + (if 0 <= id < n then Weight(c, b[id]) - (if id in a then Weight(c, a[id]) else 0) else 0)
  {
    if n > 0 {
      WorkChangesAt(c, a, b, id, n - 1);
    }
  }

  predicate IsOutcome(s: Step) {
    (s.Finish? || s.Fail?) && s.saved
  }

  lemma StepWork(c: RetryConfig, p: Pool, s: Step)
    requires Bounded(c, p) && Enabled(p, s) && Calm(p, s)
    ensures var q := Next(c, p, s);
            && 0 < q.table.nextId
            && (s.Poll? || IsOutcome(s) ==> TotalWork(c, q) < TotalWork(c, p))
            && (s.Insert? ==> TotalWork(c, q) <= TotalWork(c, p) + 2 * MaxRetries(c) + 2)
            && (!s.Insert? ==> TotalWork(c, q) <= TotalWork(c, p))
  {
    CalmStepShape(c, p, s);
    if Target(p, s).Some? {
      var id := Target(p, s).value;
      var rows := NextTable(c, p, s).rows;
      WorkChangesAt(c, p.table.rows, rows, id, NextTable(c, p, s).nextId);
      if s.Insert? {
        assert Work(c, p.table.rows, p.table.nextId + 1) == Work(c, p.table.rows, p.table.nextId);
      } else {
        TargetGetsLighter(c, p, s, id, rows[id]);
      }
    }
  }

  lemma TargetGetsLighter(c: RetryConfig, p: Pool, s: Step, id: JobId, r: Row)
    requires Bounded(c, p) && !s.Insert? && Enabled(p, s) && TargetRow(c, p, s, id, r)
    ensures id in p.table.rows && 0 < id < p.table.nextId && NextTable(c, p, s).nextId == p.table.nextId
    ensures Weight(c, r) <= Weight(c, p.table.rows[id])
    ensures s.Poll? || IsOutcome(s) ==> Weight(c, r) < Weight(c, p.table.rows[id])
  {
    assert p.table.rows[id].retryCount <= MaxRetries(c);
  }

  function LeasesAndOutcomes(ss: seq<Step>): nat {
    if ss == [] then 0 else (if ss[0].Poll? || IsOutcome(ss[0]) then 1 else 0) + LeasesAndOutcomes(ss[1..])
  }

  function Inserts(ss: seq<Step>): nat {
    if ss == [] then 0 else (if ss[0].Insert? then 1 else 0) + Inserts(ss[1..])
  }

  // The work the insertions of a run may add.
  function AddedWork(c: RetryConfig, ss: seq<Step>): nat {
    if ss == [] then 0 else (if ss[0].Insert? then 2 * MaxRetries(c) + 2 else 0) + AddedWork(c, ss[1..])
  }

  lemma {:induction false} AddedWorkPerInsert(c: RetryConfig, ss: seq<Step>)
    ensures AddedWork(c, ss) == (2 * MaxRetries(c) + 2) * Inserts(ss)
  {
    if ss != [] {
      AddedWorkPerInsert(c, ss[1..]);
    }
  }

  lemma {:induction false} RunWork(c: RetryConfig, p: Pool, ss: seq<Step>)
    requires Bounded(c, p) && CalmRun(c, p, ss)
    ensures Bounded(c, After(c, p, ss))
    ensures LeasesAndOutcomes(ss) + TotalWork(c, After(c, p, ss)) <= TotalWork(c, p) + AddedWork(c, ss)
    decreases |ss|
  {
    if ss != [] {
      StepWork(c, p, ss[0]);
      CalmKeepsBounded(c, p, ss[0]);
      RunWork(c, Next(c, p, ss[0]), ss[1..]);
    }
  }

  // The pool runs out of work: with finitely many insertions there are only finitely many
  // leases and outcomes.
  lemma WorkRunsOut(c: RetryConfig, p: Pool, ss: seq<Step>)
    requires Bounded(c, p) && CalmRun(c, p, ss)
    ensures LeasesAndOutcomes(ss) <= TotalWork(c, p) + (2 * MaxRetries(c) + 2) * Inserts(ss)
  {
    RunWork(c, p, ss);
    AddedWorkPerInsert(c, ss);
    WorkNonNegative(c, After(c, p, ss).table.rows, After(c, p, ss).table.nextId);
  }

  // A fresh pool on an empty database meets the bounds to start with.
  lemma EmptyPoolIsBounded(c: RetryConfig, workers: map<string, Worker>, now: int)
    requires forall w :: w in workers ==> workers[w].Idle?
    ensures Bounded(c, Pool(EMPTY, workers, now)) && TotalWork(c, Pool(EMPTY, workers, now)) == 0
  {
    assert Work(c, map[], 1) == Work(c, map[], 0) + 0;
  }
}
