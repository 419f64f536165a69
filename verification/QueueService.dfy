// The queue behind the write actor: what the engine's methods send is a closure that reads and
// writes inside its transaction, so a lease chooses its rows from the table it then changes.
module QueueService {
  import opened Wrappers
  import opened QueueTable
  import opened Leasing
  import opened WriteActor
  import opened Retry
  import WorkerPool

  // `tie` stands for whatever decides between rows of equal rank this time.
  datatype Request =
    | Write(stmt: Stmt)
    | TakeBatch(worker: string, limit: int, at: int, duration: int, tie: nat)

  datatype Answer = Done | NewId(id: JobId) | Batch(ids: seq<JobId>, entries: seq<Row>)

  // The database's answer to the lease query.
  type Chooser = (map<JobId, Row>, int, int, nat) -> seq<JobId>

  ghost predicate Chooses(pick: Chooser) {
    forall rows, now, limit, tie :: IsBatch(rows, now, limit, pick(rows, now, limit, tie))
  }

  // The statement a request comes down to on a given table.
  function StmtOn(pick: Chooser, t: Table, q: Request): Stmt {
    match q
    case Write(s) => s
    case TakeBatch(w, limit, at, d, tie) => Lease(pick(t.rows, at, limit, tie), w, at, at + d)
  }

  function Taken(t: Table, s: Stmt): seq<Row>
    requires s.Lease? && forall i :: 0 <= i < |s.ids| ==> s.ids[i] in t.rows
  {
    seq(|s.ids|, i requires 0 <= i < |s.ids| =>
      Claim(t.rows[s.ids[i]], s.worker, s.from, s.until).(errorMessage := None))
  }

  ghost function AnswerOn(pick: Chooser, t: Table, q: Request): Answer {
    var s := StmtOn(pick, t, q);
    if q.TakeBatch? then
      if forall i :: 0 <= i < |s.ids| ==> s.ids[i] in t.rows then Batch(s.ids, Taken(t, s)) else Done
    else if s.Enqueue? then NewId(if PathTaken(t.rows, s.path) then 0 else t.nextId)
    else Done
  }

  ghost function Transactions(pick: Chooser): Semantics<Table, Request, Answer> {
    (t, q) => (Apply(t, StmtOn(pick, t, q)), AnswerOn(pick, t, q))
  }

  // What the program sends: leases only as whole batches.
  predicate Issued(q: Request) {
    q.Write? ==> Polite(q.stmt) && !q.stmt.Lease?
  }

  lemma {:induction false} StoreStaysValid(pick: Chooser, served: seq<Served<Request>>)
    requires forall k :: 0 <= k < |served| ==> Issued(served[k].request)
    ensures Valid(Fold(Transactions(pick), EMPTY, served)) && 0 < Fold(Transactions(pick), EMPTY, served).nextId
    decreases |served|
  {
    if served != [] {
      var n := |served| - 1;
      StoreStaysValid(pick, served[..n]);
      var t := Fold(Transactions(pick), EMPTY, served[..n]);
      assert Issued(served[n].request);
      ApplyKeepsValid(t, StmtOn(pick, t, served[n].request));
    }
  }

  // A lease of a correct batch of this very table, answered with its rows as they are leased.
  ghost predicate IsLeaseOf(t: Table, q: Request, s: Stmt, a: Answer)
    requires q.TakeBatch?
  {
    && a.Batch? && IsBatch(t.rows, q.at, q.limit, a.ids)
    && s == Lease(a.ids, q.worker, q.at, q.at + q.duration)
    && |a.entries| == |a.ids|
    && forall j :: 0 <= j < |a.ids| ==>
         a.ids[j] in t.rows
         && a.entries[j] == Claim(t.rows[a.ids[j]], q.worker, q.at, q.at + q.duration).(errorMessage := None)
  }

  lemma LeasesItsOwnTable(pick: Chooser, t: Table, q: Request)
    requires Chooses(pick) && q.TakeBatch?
    ensures IsLeaseOf(t, q, StmtOn(pick, t, q), AnswerOn(pick, t, q))
  {
    var ids := pick(t.rows, q.at, q.limit, q.tie);
    assert IsBatch(t.rows, q.at, q.limit, ids);
    forall i | 0 <= i < |ids|
      ensures ids[i] in t.rows
    {
      assert ids[i] in Eligible(t.rows, q.at);
    }
  }

  // The table after the first k served requests.
  ghost function TableAt(pick: Chooser, served: seq<Served<Request>>, k: nat): Table
    requires k <= |served|
  {
    Fold(Transactions(pick), EMPTY, served[..k])
  }

  lemma TablesAreValid(pick: Chooser, ss: seq<Step<Request>>, k: nat)
    requires IsRun(Transactions(pick), Start(EMPTY), ss) && OnlyAsks(ss, Issued)
    requires k <= |After(Transactions(pick), Start(EMPTY), ss).served|
    ensures Valid(TableAt(pick, After(Transactions(pick), Start(EMPTY), ss).served, k))
  {
    var served := After(Transactions(pick), Start(EMPTY), ss).served;
    forall j | 0 <= j < k
      ensures Issued(served[..k][j].request)
    {
      ServedWereAsked(Transactions(pick), EMPTY, ss, Issued, j);
    }
    StoreStaysValid(pick, served[..k]);
  }

  // One served request, on the table it found.
  lemma ServedOn(pick: Chooser, served: seq<Served<Request>>, k: nat)
    requires k < |served| && served[k].verdict.Committed?
    ensures TableAt(pick, served, k + 1)
            == Apply(TableAt(pick, served, k), StmtOn(pick, TableAt(pick, served, k), served[k].request))
    ensures ReplyAt(Transactions(pick), EMPTY, served, k)
            == Success(AnswerOn(pick, TableAt(pick, served, k), served[k].request))
  {
    assert served[..k + 1] == served[..k] + [served[k]];
    FoldAppend(Transactions(pick), EMPTY, served[..k], served[k]);
  }

  // A write of this very statement; an insertion answers the new id, or 0 for a path already there.
  predicate WritesItself(t: Table, u: Table, s: Stmt, a: Answer) {
    && u == Apply(t, s)
    && (!s.Enqueue? ==> a == Done)
    && (s.Enqueue? ==>
          a == NewId(if exists id :: id in t.rows && t.rows[id].path == s.path then 0 else t.nextId))
  }

  // Concurrent callers on the queue, whatever the interleaving, the ties and the transactions that
  // fail: the table is valid at every place of the order, and a call that succeeded changed the
  // table of its place by its own statement, which for a lease is a correct batch of that table.
  lemma QueueBehindTheActor(pick: Chooser, ss: seq<Step<Request>>, i: nat)
    requires Chooses(pick) && IsRun(Transactions(pick), Start(EMPTY), ss) && OnlyAsks(ss, Issued)
    requires var y := After(Transactions(pick), Start(EMPTY), ss);
             i in y.calls && y.calls[i].phase.Returned? && y.calls[i].phase.reply.Success?
    ensures var y := After(Transactions(pick), Start(EMPTY), ss);
            var k, q := y.calls[i].Ticket(), y.calls[i].request;
            && k < |y.served|
            && var t := TableAt(pick, y.served, k);
               && Valid(t) && Valid(y.store)
               && TableAt(pick, y.served, k + 1) == Apply(t, StmtOn(pick, t, q))
               && (q.TakeBatch? ==> IsLeaseOf(t, q, StmtOn(pick, t, q), y.calls[i].phase.reply.result))
               && (q.Write? ==> WritesItself(t, TableAt(pick, y.served, k + 1), q.stmt, y.calls[i].phase.reply.result))
  {
    var run := Transactions(pick);
    var y := After(run, Start(EMPTY), ss);
    Linearizable(run, EMPTY, ss, i);
    var k := y.calls[i].Ticket();
    TablesAreValid(pick, ss, k);
    TablesAreValid(pick, ss, |y.served|);
    assert y.served[..|y.served|] == y.served;
    ServedOn(pick, y.served, k);
    if y.calls[i].request.TakeBatch? {
      LeasesItsOwnTable(pick, TableAt(pick, y.served, k), y.calls[i].request);
    }
  }

  // A worker's request for one row is a Poll of the pool, or finds nothing due.
  lemma LeaseOfOneIsPoll(c: RetryConfig, p: WorkerPool.Pool, w: string, ids: seq<JobId>)
    requires IsBatch(p.table.rows, p.now, 1, ids) && w in p.workers && p.workers[w].Idle?
    ensures ids == [] <==> Eligible(p.table.rows, p.now) == {}
    ensures ids != [] ==>
      && WorkerPool.Enabled(p, WorkerPool.Poll(w, ids[0]))
      && WorkerPool.Next(c, p, WorkerPool.Poll(w, ids[0])).table
         == Apply(p.table, Lease(ids, w, p.now, p.now + WorkerPool.LEASE_DURATION))
  {
    if ids != [] {
      assert ids == [ids[0]];
      assert ids[0] in Eligible(p.table.rows, p.now);
    }
  }

  // --- Such databases exist ---

  lemma {:induction false} SomeAreFirst(rows: map<JobId, Row>, pool: set<JobId>, n: nat) returns (ids: seq<JobId>)
    requires pool <= rows.Keys && n <= |pool|
    ensures |ids| == n && PickedInOrder(rows, pool, ids)
    decreases n
  {
    if n == 0 {
      ids := [];
    } else {
      BestExists(rows, pool);
      var best :| IsBest(rows, pool, best);
      var rest := SomeAreFirst(rows, pool - {best}, n - 1);
      ids := [best] + rest;
    }
  }

  lemma BatchExists(rows: map<JobId, Row>, now: int, limit: int)
    ensures exists ids :: IsBatch(rows, now, limit, ids)
  {
    var pool := Eligible(rows, now);
    var ids := SomeAreFirst(rows, pool, BatchSize(limit, |pool|));
    BatchIffPicked(rows, now, limit, ids);
  }

  ghost function PickBatch(rows: map<JobId, Row>, now: int, limit: int): (ids: seq<JobId>)
    ensures IsBatch(rows, now, limit, ids)
  {
    BatchExists(rows, now, limit);
    var ids :| IsBatch(rows, now, limit, ids);
    ids
  }

  lemma SomeDatabaseChooses() returns (pick: Chooser)
    ensures Chooses(pick)
  {
    pick := (rows: map<JobId, Row>, now: int, limit: int, tie: nat) => PickBatch(rows, now, limit);
  }
}
