// How often a job is tried when the lease monitor may step in.
//
// A steady run has no restart and no operator command, and whenever the monitor runs it finds no
// lease of a busy worker lapsed.  It may well find rows whose worker walked away or lost its last
// write, and those are tried again without an attempt being counted against the limit.
module Recoveries {
  import opened QueueTable
  import opened Retry
  import opened WorkerPool
  import opened Attempts

  ghost predicate Steady(p: Pool, s: Step) {
    if s.Monitor? then Guard(p, s) else Calm(p, s)
  }

  ghost predicate SteadyRun(c: RetryConfig, p: Pool, ss: seq<Step>)
    decreases |ss|
  {
    ss == [] || (Enabled(p, ss[0]) && Steady(p, ss[0]) && SteadyRun(c, Next(c, p, ss[0]), ss[1..]))
  }

  // One when the monitor takes this row back, else none.
  function Recovered(p: Pool, s: Step, id: JobId): nat {
    if s.Monitor? && id in p.table.rows && Stale(p.table.rows[id], p.now) then 1 else 0
  }

  function RecoveriesOf(c: RetryConfig, p: Pool, ss: seq<Step>, id: JobId): nat
    decreases |ss|
  {
    if ss == [] then 0 else Recovered(p, ss[0], id) + RecoveriesOf(c, Next(c, p, ss[0]), ss[1..], id)
  }

  lemma MonitorKeepsSound(c: RetryConfig, p: Pool)
    requires Sound(p) && Guard(p, Monitor)
    ensures Sound(Next(c, p, Monitor))
  {
    var q := Next(c, p, Monitor);
    StepKeepsTableValid(c, p, Monitor);
    RecoverExactly(p.table, p.now);
    forall w | Has(q, w)
      ensures InStep(q, w)
    {
      assert Has(p, w) && InStep(p, w);
    }
  }

  lemma SteadyKeepsSound(c: RetryConfig, p: Pool, s: Step)
    requires Sound(p) && Enabled(p, s) && Steady(p, s)
    ensures Sound(Next(c, p, s))
  {
    if s.Monitor? {
      MonitorKeepsSound(c, p);
    } else {
      CalmKeepsSound(c, p, s);
    }
  }

  lemma SteadyStepUses(c: RetryConfig, p: Pool, s: Step, id: JobId)
    requires Sound(p) && Enabled(p, s) && Steady(p, s)
    ensures Used(Next(c, p, s), id) == Used(p, id) + LeasesOf([s], id)
  {
    if s.Monitor? {
      RecoverExactly(p.table, p.now);
      assert [s][1..] == [];
    } else {
      OneStepUses(c, p, s, id);
    }
  }

  // Only a recovery takes retry_count past the configured attempts, and by one.
  lemma SteadyStepRetries(c: RetryConfig, p: Pool, s: Step, id: JobId, k: nat)
    requires Sound(p) && Enabled(p, s) && Steady(p, s)
    requires RetriesOf(p, id) <= MaxRetries(c) + k
    ensures RetriesOf(Next(c, p, s), id) <= MaxRetries(c) + k + Recovered(p, s, id)
  {
    if s.Monitor? {
      RecoverExactly(p.table, p.now);
    } else {
      CalmStepShape(c, p, s);
    }
  }

  lemma {:induction false} SteadyRunUses(c: RetryConfig, p: Pool, ss: seq<Step>, id: JobId, k: nat)
    requires Sound(p) && SteadyRun(c, p, ss) && RetriesOf(p, id) <= MaxRetries(c) + k
    ensures Sound(After(c, p, ss))
    ensures Used(After(c, p, ss), id) == Used(p, id) + LeasesOf(ss, id)
    ensures RetriesOf(After(c, p, ss), id) <= MaxRetries(c) + k + RecoveriesOf(c, p, ss, id)
    decreases |ss|
  {
    if ss != [] {
      SteadyKeepsSound(c, p, ss[0]);
      SteadyStepUses(c, p, ss[0], id);
      SteadyStepRetries(c, p, ss[0], id, k);
      assert [ss[0]][1..] == [];
      SteadyRunUses(c, Next(c, p, ss[0]), ss[1..], id, k + Recovered(p, ss[0], id));
    }
  }

  // A job is leased at most once more than its attempts and its recoveries together.
  lemma AttemptsWithRecoveries(c: RetryConfig, p: Pool, ss: seq<Step>, id: JobId)
    requires Bounded(c, p) && SteadyRun(c, p, ss)
    ensures LeasesOf(ss, id) <= MaxRetries(c) + 1 + RecoveriesOf(c, p, ss, id)
    ensures RetriesOf(After(c, p, ss), id) <= MaxRetries(c) + RecoveriesOf(c, p, ss, id)
  {
    SteadyRunUses(c, p, ss, id, 0);
  }

  // --- The recoveries themselves have no bound ---

  // One file, waiting at time t with its retry count at r, and one idle worker.
  function Waiting(path: string, r: nat, t: nat): Pool {
    Pool(Table(map[1 := FreshRow(path, 50, 0).(retryCount := r)], 2), map[FIRST := Idle], t)
  }

  // The worker leases it, skips it by its name, and the write is lost; the lease lapses and the
  // monitor takes the row back.
  function LostSkip(t: nat): seq<Step> {
    [Poll(FIRST, 1), Finish(FIRST, Skipped, "", false), Tick(t + LEASE_DURATION), Monitor]
  }

  lemma SteadyCons(c: RetryConfig, p: Pool, s: Step, rest: seq<Step>)
    requires Enabled(p, s) && Steady(p, s) && SteadyRun(c, Next(c, p, s), rest)
    ensures SteadyRun(c, p, [s] + rest) && LeasesOf([s] + rest, 1) == LeasesOf([s], 1) + LeasesOf(rest, 1)
  {
    assert ([s] + rest)[0] == s && ([s] + rest)[1..] == rest && [s][1..] == [];
  }

  // Leased at time t and left in flight by its worker.
  function Abandoned(path: string, r: nat, t: nat): Pool {
    var row := Claim(FreshRow(path, 50, 0).(retryCount := r), FIRST, t, t + LEASE_DURATION);
    Pool(Table(map[1 := row], 2), map[FIRST := Idle], t)
  }

  lemma TakenAndLost(c: RetryConfig, path: string, r: nat, t: nat, rest: seq<Step>)
    requires SteadyRun(c, Abandoned(path, r, t), rest)
    ensures var skip := Finish(FIRST, Skipped, "", false);
            && SteadyRun(c, Waiting(path, r, t), [Poll(FIRST, 1)] + ([skip] + rest))
            && LeasesOf([Poll(FIRST, 1)] + ([skip] + rest), 1) == 1 + LeasesOf(rest, 1)
  {
    var p0, skip := Waiting(path, r, t), Finish(FIRST, Skipped, "", false);
    OneRowIsNext(p0.table.rows, t, 1);
    var p1 := Next(c, p0, Poll(FIRST, 1));
    var p2 := Next(c, p1, skip);
    assert p2.table.rows == Abandoned(path, r, t).table.rows && p2.workers == Abandoned(path, r, t).workers;
    SteadyCons(c, p1, skip, rest);
    SteadyCons(c, p0, Poll(FIRST, 1), [skip] + rest);
  }

  lemma LapsedAndBack(c: RetryConfig, path: string, r: nat, t: nat, rest: seq<Step>)
    requires SteadyRun(c, Waiting(path, r + 1, t + LEASE_DURATION), rest)
    ensures var lapse := Tick(t + LEASE_DURATION);
            && SteadyRun(c, Abandoned(path, r, t), [lapse] + ([Monitor] + rest))
            && LeasesOf([lapse] + ([Monitor] + rest), 1) == LeasesOf(rest, 1)
  {
    var p0, lapse := Abandoned(path, r, t), Tick(t + LEASE_DURATION);
    var p1 := Next(c, p0, lapse);
    var p2, end := Next(c, p1, Monitor), Waiting(path, r + 1, t + LEASE_DURATION);
    assert p2.table.rows == end.table.rows;
    SteadyCons(c, p1, Monitor, rest);
    SteadyCons(c, p0, lapse, [Monitor] + rest);
  }

  lemma LostSkipComesBack(c: RetryConfig, path: string, r: nat, t: nat, rest: seq<Step>)
    requires SteadyRun(c, Waiting(path, r + 1, t + LEASE_DURATION), rest)
    ensures SteadyRun(c, Waiting(path, r, t), LostSkip(t) + rest)
    ensures LeasesOf(LostSkip(t) + rest, 1) == 1 + LeasesOf(rest, 1)
  {
    LapsedAndBack(c, path, r, t, rest);
    TakenAndLost(c, path, r, t, [Tick(t + LEASE_DURATION)] + ([Monitor] + rest));
    assert [Poll(FIRST, 1)] + ([Finish(FIRST, Skipped, "", false)] + ([Tick(t + LEASE_DURATION)] + ([Monitor] + rest)))
        == LostSkip(t) + rest;
  }

  // While the last write keeps being lost, one job is leased as often as one likes.
  lemma {:induction false} LostWritesLeaseForever(c: RetryConfig, path: string, r: nat, t: nat, n: nat)
    returns (ss: seq<Step>)
    ensures SteadyRun(c, Waiting(path, r, t), ss) && LeasesOf(ss, 1) == n
    decreases n
  {
    if n == 0 {
      ss := [];
    } else {
      var rest := LostWritesLeaseForever(c, path, r + 1, t + LEASE_DURATION, n - 1);
      LostSkipComesBack(c, path, r, t, rest);
      ss := LostSkip(t) + rest;
    }
  }
}
