// One worker's code: lease, evaluate, transcode, and the writes it makes on the way.
//
// The methods run against the queue engine while others run whatever statements they like on it.
// What a worker writes is stated as a script of steps of the WorkerPool system, so that whole-run
// results about that system hold of this code.
module WorkerRoutine {
  import opened Wrappers
  import Sequences
  import opened QueueTable
  import opened Leasing
  import opened QueueEngine
  import opened Retry
  import opened WorkerPool

  // isCanceled: errors.Is(err, context.Canceled).
  datatype Err = Err(text: string, isCanceled: bool)

  datatype Evaluation =
    | EvaluationFails(err: Err)
    | Decided(action: string, rule: string, needsReview: bool, reviewReason: string)

  datatype PreCheck = NotRun | Broken | Passed | Rejected(note: string)

  datatype Encode =
    | NoPermit(err: Err)
    | ExecuteFails(err: Err)
    | GrewTooMuch(reason: string)
    | QualityRejected(reason: string)
    | Encoded

  // Everything a worker learns while it has one entry, and which of its writes go through:
  // the move to evaluating, the move to transcoding, and the last one.
  datatype Outside = Outside(
    crunched: bool,
    evaluation: Evaluation,
    preCheck: PreCheck,
    encode: Encode,
    draw: Ratio,
    savedEvaluating: bool,
    savedTranscoding: bool,
    savedLast: bool)

  const CRUNCHED_NOTE: string := "auto-skipped: already crunched (_crunched suffix)"

  predicate Contains(s: string, part: string) {
    part <= s || (s != "" && Contains(s[1..], part))
  }

  predicate OccursAt(s: string, part: string, i: int) {
    0 <= i <= |s| - |part| && s[i..i + |part|] == part
  }

  lemma {:induction false} ContainsIff(s: string, part: string)
    ensures Contains(s, part) <==> exists i :: OccursAt(s, part, i)
    decreases |s|
  {
    if part <= s {
      assert OccursAt(s, part, 0);
    } else if s == "" {
      assert forall i :: !OccursAt(s, part, i);
    } else {
      var rest := s[1..];
      ContainsIff(rest, part);
      if i :| OccursAt(rest, part, i) {
        assert OccursAt(s, part, i + 1) by {
          Sequences.SliceOfSlice(s, 1, i, i + |part|);
        }
      }
      if i :| OccursAt(s, part, i) {
        assert OccursAt(rest, part, i - 1) by {
          Sequences.SliceOfSlice(s, 1, i - 1, i - 1 + |part|);
        }
      }
    }
  }

  predicate Canceled(err: Err) {
    err.isCanceled || Contains(err.text, "context canceled")
  }

  predicate IsSegfault(text: string) {
    Contains(text, "segmentation fault") || Contains(text, "core dumped") || Contains(text, "SIGSEGV")
  }

  // --- The steps one entry goes through ---

  function FailureStep(w: string, err: Err, o: Outside): Step {
    if Canceled(err) then WalkAway(w) else Fail(w, IsSegfault(err.text), o.draw, err.text, o.savedLast)
  }

  function Wrap(prefix: string, err: Err): Err {
    Err(prefix + err.text, err.isCanceled)
  }

  function EncodeStep(w: string, o: Outside): Step {
    if o.preCheck.Rejected? then Finish(w, Skipped, o.preCheck.note, o.savedLast)
    else
      match o.encode
      case NoPermit(err) => FailureStep(w, Wrap("semaphore acquisition failed: ", err), o)
      case ExecuteFails(err) => FailureStep(w, Wrap("transcode execution error: ", err), o)
      case GrewTooMuch(reason) => Finish(w, Skipped, reason, o.savedLast)
      case QualityRejected(reason) => Finish(w, QualityFailed, reason, o.savedLast)
      case Encoded => Finish(w, Completed, "", o.savedLast)
  }

  function DecisionScript(w: string, o: Outside): seq<Step> {
    match o.evaluation
    case EvaluationFails(err) => [FailureStep(w, Wrap("evaluation failed: ", err), o)]
    case Decided(action, rule, needsReview, reviewReason) =>
      if action == "skip" then [Finish(w, Skipped, rule, o.savedLast)]
      else if action == "review" then [Finish(w, ReviewRequired, "flagged for review", o.savedLast)]
      else if action == "copy" then [Finish(w, Completed, "stream copied", o.savedLast)]
      else if action == "transcode" && needsReview then [Finish(w, ReviewRequired, reviewReason, o.savedLast)]
      else if action == "transcode" then [Advance(w, o.savedTranscoding), EncodeStep(w, o)]
      else [WalkAway(w)]
  }

  function Script(w: string, o: Outside): seq<Step> {
    if o.crunched then [Finish(w, Skipped, CRUNCHED_NOTE, o.savedLast)]
    else [Advance(w, o.savedEvaluating)] + DecisionScript(w, o)
  }

  // --- The script under any interleaving ---

  predicate LocallyEnabled(b: Worker, s: Step) {
    b.Busy? &&
    match s
    case Advance(_, _) => !b.stage.Encoding?
    case Finish(_, outcome, _, _) => MayFinish(b.stage, outcome)
    case Fail(_, _, _, _, _) => !b.stage.Fetched?
    case WalkAway(_) => true
    case _ => false
  }

  function LocalNext(b: Worker, s: Step): Worker {
    if b.Busy? && s.Advance? then b.(stage := if b.stage.Fetched? then Probing else Encoding) else Idle
  }

  // From b the worker can take all these steps of its own and then is idle.
  predicate LocalRun(b: Worker, w: string, ss: seq<Step>)
    decreases |ss|
  {
    if ss == [] then b.Idle?
    else StepOf(ss[0], w) && LocallyEnabled(b, ss[0]) && LocalRun(LocalNext(b, ss[0]), w, ss[1..])
  }

  function Own(w: string, ss: seq<Step>): seq<Step> {
    if ss == [] then [] else (if StepOf(ss[0], w) then [ss[0]] else []) + Own(w, ss[1..])
  }

  // Everyone else's steps are enabled when they come.
  ghost predicate OthersEnabled(c: RetryConfig, p: Pool, w: string, ss: seq<Step>)
    decreases |ss|
  {
    ss == [] ||
    ((StepOf(ss[0], w) || Enabled(p, ss[0])) && OthersEnabled(c, Next(c, p, ss[0]), w, ss[1..]))
  }

  lemma EndsIdle(b: Worker, w: string, last: Step)
    requires StepOf(last, w) && LocallyEnabled(b, last) && !last.Advance?
    ensures LocalRun(b, w, [last])
  {
    assert [last][1..] == [];
  }

  lemma DecisionIsLocalRun(b: Worker, w: string, o: Outside)
    requires b.Busy? && b.stage.Probing?
    ensures LocalRun(b, w, DecisionScript(w, o))
  {
    var ss := DecisionScript(w, o);
    if |ss| == 1 {
      EndsIdle(b, w, ss[0]);
    } else {
      var encoding := LocalNext(b, ss[0]);
      EndsIdle(encoding, w, ss[1]);
      assert ss[1..] == [ss[1]];
    }
  }

  lemma ScriptIsLocalRun(b: Worker, w: string, o: Outside)
    requires b.Busy? && b.stage.Fetched?
    ensures LocalRun(b, w, Script(w, o))
  {
    var ss := Script(w, o);
    if o.crunched {
      EndsIdle(b, w, ss[0]);
    } else {
      DecisionIsLocalRun(LocalNext(b, ss[0]), w, o);
      assert ss[1..] == DecisionScript(w, o);
    }
  }

  // Whatever the other workers, the monitor and the operator do in between, a worker that
  // follows its script only ever takes enabled steps and ends idle.
  lemma {:induction false} AnyInterleavingIsARun(c: RetryConfig, p: Pool, w: string, ss: seq<Step>)
    requires w in p.workers && OthersEnabled(c, p, w, ss) && LocalRun(p.workers[w], w, Own(w, ss))
    ensures IsRun(c, p, ss)
    ensures w in After(c, p, ss).workers && After(c, p, ss).workers[w].Idle?
    decreases |ss|
  {
    if ss != [] {
      var q := Next(c, p, ss[0]);
      if StepOf(ss[0], w) {
        assert Own(w, ss)[0] == ss[0] && Own(w, ss)[1..] == Own(w, ss[1..]);
        assert q.workers[w] == LocalNext(p.workers[w], ss[0]);
      } else {
        assert q.workers[w] == p.workers[w];
        assert Own(w, ss) == Own(w, ss[1..]);
      }
      AnyInterleavingIsARun(c, q, w, ss[1..]);
    }
  }

  lemma ScriptUnderInterference(c: RetryConfig, p: Pool, w: string, o: Outside, ss: seq<Step>)
    requires Has(p, w) && p.workers[w].stage.Fetched?
    requires Own(w, ss) == Script(w, o) && OthersEnabled(c, p, w, ss)
    ensures IsRun(c, p, ss)
    ensures w in After(c, p, ss).workers && After(c, p, ss).workers[w].Idle?
  {
    ScriptIsLocalRun(p.workers[w], w, o);
    AnyInterleavingIsARun(c, p, w, ss);
  }

  // --- What an undisturbed pass leaves ---

  // A step that ends the worker's pass without changing the table.
  predicate LeavesRow(s: Step) {
    match s
    case Finish(_, _, _, saved) => !saved
    case Fail(_, _, _, _, saved) => !saved
    case WalkAway(_) => true
    case _ => false
  }

  lemma OwnStepOnRow(c: RetryConfig, p: Pool, w: string, s: Step)
    requires Has(p, w) && StepOf(s, w) && LocallyEnabled(p.workers[w], s)
    requires p.workers[w].id in p.table.rows && InFlight(p.table.rows[p.workers[w].id].state)
    ensures var id, q := p.workers[w].id, Next(c, p, s);
            && id in q.table.rows && w in q.workers && q.workers[w] == LocalNext(p.workers[w], s)
            && (InFlight(q.table.rows[id].state) <==> s.Advance? || LeavesRow(s))
            && (s.Advance? ==> q.workers[w].id == id)
  {
  }

  lemma {:induction false} LocalRunOnRow(c: RetryConfig, p: Pool, w: string, ss: seq<Step>)
    requires Has(p, w) && LocalRun(p.workers[w], w, ss)
    requires p.workers[w].id in p.table.rows && InFlight(p.table.rows[p.workers[w].id].state)
    ensures var id, q := p.workers[w].id, After(c, p, ss);
            && ss != [] && id in q.table.rows
            && (InFlight(q.table.rows[id].state) <==> LeavesRow(ss[|ss| - 1]))
    decreases |ss|
  {
    OwnStepOnRow(c, p, w, ss[0]);
    if ss[0].Advance? {
      LocalRunOnRow(c, Next(c, p, ss[0]), w, ss[1..]);
    } else {
      assert ss == [ss[0]];
      AfterOne(c, p, ss[0]);
    }
  }

  lemma ScriptEnds(w: string, o: Outside)
    ensures var ss := Script(w, o);
            ss != [] && (LeavesRow(ss[|ss| - 1]) <==> !o.savedLast || ss[|ss| - 1].WalkAway?)
  {
    var ds := DecisionScript(w, o);
    assert LeavesRow(ds[|ds| - 1]) <==> !o.savedLast || ds[|ds| - 1].WalkAway?;
  }

  // An undisturbed pass leaves its entry in flight, for the lease monitor to find, exactly when
  // the worker walked away from it or its last write was lost; whatever else was lost.
  lemma LeftInFlightIff(c: RetryConfig, p: Pool, w: string, o: Outside)
    requires Has(p, w) && p.workers[w].stage.Fetched? && p.workers[w].id in p.table.rows
    requires InFlight(p.table.rows[p.workers[w].id].state)
    ensures var ss, id := Script(w, o), p.workers[w].id;
            var q := After(c, p, ss);
            && id in q.table.rows
            && (InFlight(q.table.rows[id].state) <==> !o.savedLast || ss[|ss| - 1].WalkAway?)
  {
    ScriptIsLocalRun(p.workers[w], w, o);
    LocalRunOnRow(c, p, w, Script(w, o));
    ScriptEnds(w, o);
  }

  lemma AfterOne(c: RetryConfig, p: Pool, a: Step)
    ensures After(c, p, [a]) == Next(c, p, a)
  {
    assert [a][1..] == [];
  }

  // --- The script among other people's statements ---

  // What others commit before one of this worker's steps, and what the clock then says.
  datatype Gap = Gap(stmts: seq<Stmt>, clock: int)

  function ApplyIf(t: Table, s: Option<Stmt>): Table {
    if s.Some? then Apply(t, s.value) else t
  }

  // A worker's own step writes by what the worker knows and by the clock, never by the table.
  function OwnStmt(c: RetryConfig, w: string, b: Worker, now: int, s: Step): Option<Stmt> {
    StmtOf(c, Pool(EMPTY, map[w := b], now), s)
  }

  // The table after others' statements and own steps in turn.
  function Played(c: RetryConfig, w: string, b: Worker, t: Table, own: seq<Step>, gaps: seq<Gap>): Table
    requires |own| == |gaps|
    decreases |own|
  {
    if own == [] then t
    else
      var found := ApplyAll(t, gaps[0].stmts);
      Played(c, w, LocalNext(b, own[0]), ApplyIf(found, OwnStmt(c, w, b, gaps[0].clock, own[0])), own[1..], gaps[1..])
  }

  lemma PlayedOne(c: RetryConfig, w: string, b: Worker, t: Table, s: Step, gap: Gap)
    ensures Played(c, w, b, t, [s], [gap]) == ApplyIf(ApplyAll(t, gap.stmts), OwnStmt(c, w, b, gap.clock, s))
  {
    assert [s][1..] == [] && [gap][1..] == [];
  }

  lemma PlayedMore(c: RetryConfig, w: string, b: Worker, t: Table, s: Step, gap: Gap, own: seq<Step>, gaps: seq<Gap>)
    requires |own| == |gaps|
    ensures Played(c, w, b, t, [s] + own, [gap] + gaps)
            == Played(c, w, LocalNext(b, s), ApplyIf(ApplyAll(t, gap.stmts), OwnStmt(c, w, b, gap.clock, s)), own, gaps)
  {
    assert ([s] + own)[1..] == own && ([gap] + gaps)[1..] == gaps;
  }

  // --- What a pass leaves of its row ---

  // Others leave this row, leased until then, alone; the monitor may run while the lease lasts.
  predicate Spares(id: JobId, until: Option<int>, s: Stmt) {
    match s
    case Enqueue(_, _, _) => true
    case Lease(ids, _, _, _) => id !in ids
    case UpdateState(i, _, _) => i != id
    case Backoff(i, _, _) => i != id
    case Recover(at) => until.Some? && at < until.value
    case ResetInFlight => false
    case Requeue(i, _) => i != id
    case Pause(i) => i != id
    case Ignore(i) => i != id
    case SetPriority(i, _) => i != id
    case Delete(i) => i != id
  }

  predicate AllSpare(id: JobId, until: Option<int>, ss: seq<Stmt>) {
    forall s :: s in ss ==> Spares(id, until, s)
  }

  ghost predicate Undisturbed(t: Table, id: JobId, gaps: seq<Gap>) {
    && id in t.rows && id < t.nextId
    && forall k :: 0 <= k < |gaps| ==> AllSpare(id, t.rows[id].leaseExpiresAt, gaps[k].stmts)
  }

  lemma {:induction false} SparedRow(t: Table, id: JobId, ss: seq<Stmt>)
    requires id in t.rows && id < t.nextId && AllSpare(id, t.rows[id].leaseExpiresAt, ss)
    ensures var u := ApplyAll(t, ss); id in u.rows && id < u.nextId && u.rows[id] == t.rows[id]
    decreases |ss|
  {
    if ss != [] {
      assert Spares(id, t.rows[id].leaseExpiresAt, ss[0]);
      SparedRow(Apply(t, ss[0]), id, ss[1..]);
    }
  }

  // A row before and after a state write that may be lost.
  function Written(r: Row, state: JobState, message: string, saved: bool): Row {
    if saved then r.(state := state, errorMessage := Some(message)) else r
  }

  // A row before and after the failure of an attempt that began with this retry count.
  predicate FailureLeaves(c: RetryConfig, n: nat, now: int, err: Err, saved: bool, r: Row, q: Row) {
    if err.isCanceled || Contains(err.text, "context canceled") || !saved then q == r
    else if || Contains(err.text, "segmentation fault") || Contains(err.text, "core dumped")
            || Contains(err.text, "SIGSEGV") || n >= (if c.maxAttempts <= 0 then 3 else c.maxAttempts) then
      q == r.(state := PermanentlyFailed, errorMessage := Some(err.text))
    else
      var nominal := (if c.baseInterval <= 0 then 15_000_000_000 else c.baseInterval) * Pow2(n);
      && nominal <= q.scheduledAt - now && 5 * (q.scheduledAt - now) <= 6 * nominal
      && q == r.(state := Pending, retryCount := r.retryCount + 1, scheduledAt := q.scheduledAt,
                 errorMessage := Some(err.text), workerId := None, leasedAt := None, leaseExpiresAt := None)
  }

  // The rows before and after the end of a transcode.
  predicate EncodeLeaves(c: RetryConfig, o: Outside, n: nat, now: int, r: Row, q: Row) {
    if o.preCheck.Rejected? then q == Written(r, Skipped, o.preCheck.note, o.savedLast)
    else
      match o.encode
      case NoPermit(err) =>
        FailureLeaves(c, n, now, Err("semaphore acquisition failed: " + err.text, err.isCanceled), o.savedLast, r, q)
      case ExecuteFails(err) =>
        FailureLeaves(c, n, now, Err("transcode execution error: " + err.text, err.isCanceled), o.savedLast, r, q)
      case GrewTooMuch(reason) => q == Written(r, Skipped, reason, o.savedLast)
      case QualityRejected(reason) => q == Written(r, QualityFailed, reason, o.savedLast)
      case Encoded => q == Written(r, Completed, "", o.savedLast)
  }

  // The rows before and after what follows the evaluation.
  predicate DecisionLeaves(c: RetryConfig, o: Outside, n: nat, now: int, r: Row, q: Row) {
    match o.evaluation
    case EvaluationFails(err) =>
      FailureLeaves(c, n, now, Err("evaluation failed: " + err.text, err.isCanceled), o.savedLast, r, q)
    case Decided(action, rule, needsReview, reviewReason) =>
      if action == "skip" then q == Written(r, Skipped, rule, o.savedLast)
      else if action == "review" then q == Written(r, ReviewRequired, "flagged for review", o.savedLast)
      else if action == "copy" then q == Written(r, Completed, "stream copied", o.savedLast)
      else if action == "transcode" && needsReview then q == Written(r, ReviewRequired, reviewReason, o.savedLast)
      else if action == "transcode" then EncodeLeaves(c, o, n, now, Written(r, Transcoding, "", o.savedTranscoding), q)
      else q == r
  }

  predicate PassLeaves(c: RetryConfig, o: Outside, n: nat, now: int, r: Row, q: Row) {
    if o.crunched then q == Written(r, Skipped, CRUNCHED_NOTE, o.savedLast)
    else DecisionLeaves(c, o, n, now, Written(r, Evaluating, "", o.savedEvaluating), q)
  }

  // One own step behind a gap in which nobody touches the row.
  lemma OwnStepOnSparedRow(c: RetryConfig, w: string, b: Worker, t: Table, s: Step, gap: Gap)
    requires b.Busy? && Undisturbed(t, b.id, [gap]) && StepOf(s, w) && !s.Poll?
    ensures var st, u := OwnStmt(c, w, b, gap.clock, s), ApplyIf(ApplyAll(t, gap.stmts), OwnStmt(c, w, b, gap.clock, s));
            && b.id in u.rows && b.id < u.nextId
            && u.rows[b.id] == (if st.Some? then Change(b.id, t.rows[b.id], st.value) else t.rows[b.id])
  {
    assert [gap][0] == gap;
    SparedRow(t, b.id, gap.stmts);
  }

  lemma FailureWrites(c: RetryConfig, w: string, b: Worker, now: int, err: Err, o: Outside)
    requires b.Busy?
    ensures OwnStmt(c, w, b, now, FailureStep(w, err, o)) ==
            if Canceled(err) || !o.savedLast then None
            else if !IsSegfault(err.text) && b.retrySeen < MaxRetries(c)
            then Some(Stmt.Backoff(b.id, now + Delay(c, b.retrySeen, o.draw), err.text))
            else Some(UpdateState(b.id, PermanentlyFailed, err.text))
  {
  }

  lemma FailureOnRow(c: RetryConfig, w: string, b: Worker, t: Table, err: Err, o: Outside, gap: Gap)
    requires b.Busy? && Undisturbed(t, b.id, [gap])
    ensures var u := ApplyIf(ApplyAll(t, gap.stmts), OwnStmt(c, w, b, gap.clock, FailureStep(w, err, o)));
            && b.id in u.rows && FailureLeaves(c, b.retrySeen, gap.clock, err, o.savedLast, t.rows[b.id], u.rows[b.id])
  {
    OwnStepOnSparedRow(c, w, b, t, FailureStep(w, err, o), gap);
    DelayInBand(c, b.retrySeen, o.draw);
    NominalIsDoubledBase(c, b.retrySeen);
  }

  lemma EncodeOnRow(c: RetryConfig, w: string, b: Worker, t: Table, o: Outside, gap: Gap)
    requires b.Busy? && Undisturbed(t, b.id, [gap])
    ensures var u := ApplyIf(ApplyAll(t, gap.stmts), OwnStmt(c, w, b, gap.clock, EncodeStep(w, o)));
            && b.id in u.rows && EncodeLeaves(c, o, b.retrySeen, gap.clock, t.rows[b.id], u.rows[b.id])
  {
    if !o.preCheck.Rejected? && o.encode.NoPermit? {
      FailureOnRow(c, w, b, t, Wrap("semaphore acquisition failed: ", o.encode.err), o, gap);
    } else if !o.preCheck.Rejected? && o.encode.ExecuteFails? {
      FailureOnRow(c, w, b, t, Wrap("transcode execution error: ", o.encode.err), o, gap);
    } else {
      OwnStepOnSparedRow(c, w, b, t, EncodeStep(w, o), gap);
    }
  }

  // A stage change, and what it leaves undisturbed.
  lemma AdvanceOnRow(c: RetryConfig, w: string, b: Worker, t: Table, saved: bool, gap: Gap, rest: seq<Gap>)
    requires b.Busy? && Undisturbed(t, b.id, [gap] + rest)
    ensures var u := ApplyIf(ApplyAll(t, gap.stmts), OwnStmt(c, w, b, gap.clock, Advance(w, saved)));
            && Undisturbed(u, b.id, rest)
            && u.rows[b.id] == Written(t.rows[b.id], if b.stage.Fetched? then Evaluating else Transcoding, "", saved)
  {
    assert ([gap] + rest)[0] == gap;
    forall k | 0 <= k < |rest|
      ensures AllSpare(b.id, t.rows[b.id].leaseExpiresAt, rest[k].stmts)
    {
      assert ([gap] + rest)[k + 1] == rest[k];
    }
    OwnStepOnSparedRow(c, w, b, t, Advance(w, saved), gap);
  }

  lemma TranscodeOnRow(c: RetryConfig, w: string, b: Worker, t: Table, o: Outside, gaps: seq<Gap>)
    requires b.Busy? && b.stage.Probing? && |gaps| == 2 && Undisturbed(t, b.id, gaps)
    ensures var u := Played(c, w, b, t, [Advance(w, o.savedTranscoding), EncodeStep(w, o)], gaps);
            && b.id in u.rows
            && EncodeLeaves(c, o, b.retrySeen, gaps[1].clock,
                            Written(t.rows[b.id], Transcoding, "", o.savedTranscoding), u.rows[b.id])
  {
    var first, last := Advance(w, o.savedTranscoding), EncodeStep(w, o);
    var mid := ApplyIf(ApplyAll(t, gaps[0].stmts), OwnStmt(c, w, b, gaps[0].clock, first));
    assert gaps == [gaps[0]] + [gaps[1]] && [first, last] == [first] + [last];
    AdvanceOnRow(c, w, b, t, o.savedTranscoding, gaps[0], [gaps[1]]);
    EncodeOnRow(c, w, LocalNext(b, first), mid, o, gaps[1]);
    PlayedMore(c, w, b, t, first, gaps[0], [last], [gaps[1]]);
    PlayedOne(c, w, LocalNext(b, first), mid, last, gaps[1]);
  }

  lemma DecisionOnRow(c: RetryConfig, w: string, b: Worker, t: Table, o: Outside, gaps: seq<Gap>)
    requires b.Busy? && b.stage.Probing? && |gaps| == |DecisionScript(w, o)| && Undisturbed(t, b.id, gaps)
    ensures var u := Played(c, w, b, t, DecisionScript(w, o), gaps);
            && b.id in u.rows
            && DecisionLeaves(c, o, b.retrySeen, gaps[|gaps| - 1].clock, t.rows[b.id], u.rows[b.id])
  {
    var ss := DecisionScript(w, o);
    if |ss| == 2 {
      TranscodeOnRow(c, w, b, t, o, gaps);
    } else {
      assert gaps == [gaps[0]] && ss == [ss[0]];
      PlayedOne(c, w, b, t, ss[0], gaps[0]);
      if o.evaluation.EvaluationFails? {
        FailureOnRow(c, w, b, t, Wrap("evaluation failed: ", o.evaluation.err), o, gaps[0]);
      } else {
        OwnStepOnSparedRow(c, w, b, t, ss[0], gaps[0]);
      }
    }
  }

  // A pass nobody disturbs: what it makes of its row, whichever of its writes are lost.
  lemma PassOnRow(c: RetryConfig, w: string, b: Worker, t: Table, o: Outside, gaps: seq<Gap>)
    requires b.Busy? && b.stage.Fetched? && |gaps| == |Script(w, o)| && Undisturbed(t, b.id, gaps)
    ensures var u := Played(c, w, b, t, Script(w, o), gaps);
            && b.id in u.rows
            && PassLeaves(c, o, b.retrySeen, gaps[|gaps| - 1].clock, t.rows[b.id], u.rows[b.id])
  {
    var ss := Script(w, o);
    if o.crunched {
      assert gaps == [gaps[0]];
      PlayedOne(c, w, b, t, ss[0], gaps[0]);
      OwnStepOnSparedRow(c, w, b, t, ss[0], gaps[0]);
    } else {
      var first, own, rest := ss[0], DecisionScript(w, o), gaps[1..];
      assert gaps == [gaps[0]] + rest && ss == [first] + own;
      var mid := ApplyIf(ApplyAll(t, gaps[0].stmts), OwnStmt(c, w, b, gaps[0].clock, first));
      AdvanceOnRow(c, w, b, t, o.savedEvaluating, gaps[0], rest);
      PlayedMore(c, w, b, t, first, gaps[0], own, rest);
      DecisionOnRow(c, w, LocalNext(b, first), mid, o, rest);
    }
  }

  lemma OutcomesOfFailure(c: RetryConfig, n: nat, now: int, err: Err, r: Row, q: Row)
    requires FailureLeaves(c, n, now, err, true, r, q) && InFlight(r.state)
    ensures InFlight(q.state) || q.state.Pending? || q.state.PermanentlyFailed?
  {
  }

  lemma OutcomesOfTranscode(c: RetryConfig, o: Outside, n: nat, now: int, r: Row, q: Row)
    requires EncodeLeaves(c, o, n, now, r, q) && InFlight(r.state) && o.savedLast
    ensures q.state.Completed? <==> !o.preCheck.Rejected? && o.encode.Encoded?
    ensures q.state.QualityFailed? <==> !o.preCheck.Rejected? && o.encode.QualityRejected?
    ensures q.state.Skipped? <==> o.preCheck.Rejected? || o.encode.GrewTooMuch?
    ensures !q.state.ReviewRequired?
  {
    if !o.preCheck.Rejected? && o.encode.NoPermit? {
      OutcomesOfFailure(c, n, now, Wrap("semaphore acquisition failed: ", o.encode.err), r, q);
    } else if !o.preCheck.Rejected? && o.encode.ExecuteFails? {
      OutcomesOfFailure(c, n, now, Wrap("transcode execution error: ", o.encode.err), r, q);
    }
  }

  // The outcomes of a pass, each by what was met.
  lemma OutcomesOfPass(c: RetryConfig, o: Outside, n: nat, now: int, r: Row, q: Row)
    requires PassLeaves(c, o, n, now, r, q) && InFlight(r.state) && o.savedLast
    ensures var action := if !o.crunched && o.evaluation.Decided? then o.evaluation.action else "";
            var transcodes := action == "transcode" && !o.evaluation.needsReview && !o.preCheck.Rejected?;
            && (q.state.Completed? <==> action == "copy" || (transcodes && o.encode.Encoded?))
            && (q.state.QualityFailed? <==> transcodes && o.encode.QualityRejected?)
            && (q.state.Skipped? <==>
                  || o.crunched || action == "skip"
                  || (action == "transcode" && !o.evaluation.needsReview && o.preCheck.Rejected?)
                  || (action == "transcode" && !o.evaluation.needsReview && o.encode.GrewTooMuch?))
            && (q.state.ReviewRequired? <==>
                  action == "review" || (action == "transcode" && o.evaluation.needsReview))
  {
    if !o.crunched {
      var probing := Written(r, Evaluating, "", o.savedEvaluating);
      match o.evaluation
      case EvaluationFails(err) => OutcomesOfFailure(c, n, now, Wrap("evaluation failed: ", err), probing, q);
      case Decided(action, _, needsReview, _) =>
        if action == "transcode" && !needsReview {
          OutcomesOfTranscode(c, o, n, now, Written(probing, Transcoding, "", o.savedTranscoding), q);
        }
    }
  }

  // --- ... is a run of the pool ---

  function RunStmts(c: RetryConfig, p: Pool, ss: seq<Step>): seq<Stmt>
    decreases |ss|
  {
    if ss == [] then []
    else
      var rest := RunStmts(c, Next(c, p, ss[0]), ss[1..]);
      if StmtOf(c, p, ss[0]).Some? then [StmtOf(c, p, ss[0]).value] + rest else rest
  }

  lemma {:induction false} TableOfRun(c: RetryConfig, p: Pool, ss: seq<Step>)
    ensures After(c, p, ss).table == ApplyAll(p.table, RunStmts(c, p, ss))
    decreases |ss|
  {
    if ss != [] {
      var q, rest := Next(c, p, ss[0]), RunStmts(c, Next(c, p, ss[0]), ss[1..]);
      TableOfRun(c, q, ss[1..]);
      if StmtOf(c, p, ss[0]).Some? {
        var st := StmtOf(c, p, ss[0]).value;
        assert ([st] + rest)[0] == st && ([st] + rest)[1..] == rest;
      }
    }
  }

  lemma {:induction false} AfterChain(c: RetryConfig, p: Pool, a: seq<Step>, b: seq<Step>)
    ensures After(c, p, a + b) == After(c, After(c, p, a), b)
    decreases |a|
  {
    if a == [] {
      assert a + b == b;
    } else {
      assert (a + b)[0] == a[0] && (a + b)[1..] == a[1..] + b;
      AfterChain(c, Next(c, p, a[0]), a[1..], b);
    }
  }

  predicate Foreign(w: string, ss: seq<Step>) {
    forall k :: 0 <= k < |ss| ==> !StepOf(ss[k], w)
  }

  lemma {:induction false} ForeignKeepsWorker(c: RetryConfig, p: Pool, w: string, ss: seq<Step>)
    requires w in p.workers && Foreign(w, ss)
    ensures w in After(c, p, ss).workers && After(c, p, ss).workers[w] == p.workers[w]
    decreases |ss|
  {
    if ss != [] {
      ForeignKeepsWorker(c, Next(c, p, ss[0]), w, ss[1..]);
    }
  }

  lemma {:induction false} OwnAfterForeign(w: string, a: seq<Step>, b: seq<Step>)
    requires Foreign(w, a)
    ensures Own(w, a + b) == Own(w, b)
    decreases |a|
  {
    if a == [] {
      assert a + b == b;
    } else {
      assert (a + b)[0] == a[0] && (a + b)[1..] == a[1..] + b;
      OwnAfterForeign(w, a[1..], b);
    }
  }

  // Own steps, each behind the steps others take first.
  function Weave(own: seq<Step>, foreign: seq<seq<Step>>): seq<Step>
    requires |own| == |foreign|
    decreases |own|
  {
    if own == [] then [] else foreign[0] + ([own[0]] + Weave(own[1..], foreign[1..]))
  }

  // The steps of others that stand behind what a worker's code found in each gap.
  ghost predicate Matches(c: RetryConfig, p: Pool, w: string, own: seq<Step>, foreign: seq<seq<Step>>, gaps: seq<Gap>)
    decreases |own|
  {
    && |own| == |foreign| == |gaps|
    && (own != [] ==>
          var q := After(c, p, foreign[0]);
          && Foreign(w, foreign[0])
          && gaps[0] == Gap(RunStmts(c, p, foreign[0]), q.now)
          && Matches(c, Next(c, q, own[0]), w, own[1..], foreign[1..], gaps[1..]))
  }

  lemma OwnStepWrites(c: RetryConfig, p: Pool, w: string, s: Step)
    requires w in p.workers && StepOf(s, w) && LocallyEnabled(p.workers[w], s)
    ensures NextTable(c, p, s) == ApplyIf(p.table, OwnStmt(c, w, p.workers[w], p.now, s))
    ensures w in NextWorkers(p, s) && NextWorkers(p, s)[w] == LocalNext(p.workers[w], s)
  {
  }

  lemma {:induction false} PlayedIsTheRun(
    c: RetryConfig, p: Pool, w: string, own: seq<Step>, foreign: seq<seq<Step>>, gaps: seq<Gap>)
    requires w in p.workers && LocalRun(p.workers[w], w, own) && Matches(c, p, w, own, foreign, gaps)
    ensures After(c, p, Weave(own, foreign)).table == Played(c, w, p.workers[w], p.table, own, gaps)
    ensures Own(w, Weave(own, foreign)) == own
    decreases |own|
  {
    if own != [] {
      var q := After(c, p, foreign[0]);
      var rest := Weave(own[1..], foreign[1..]);
      ForeignKeepsWorker(c, p, w, foreign[0]);
      TableOfRun(c, p, foreign[0]);
      OwnStepWrites(c, q, w, own[0]);
      PlayedIsTheRun(c, Next(c, q, own[0]), w, own[1..], foreign[1..], gaps[1..]);
      AfterChain(c, p, foreign[0], [own[0]] + rest);
      assert ([own[0]] + rest)[0] == own[0] && ([own[0]] + rest)[1..] == rest;
      OwnAfterForeign(w, foreign[0], [own[0]] + rest);
    }
  }

  // One entry, under any interference: the code's table is that of a run of the pool.
  lemma EntryIsARun(c: RetryConfig, p: Pool, w: string, o: Outside, foreign: seq<seq<Step>>, gaps: seq<Gap>)
    requires Has(p, w) && p.workers[w].stage.Fetched?
    requires Matches(c, p, w, Script(w, o), foreign, gaps) && OthersEnabled(c, p, w, Weave(Script(w, o), foreign))
    ensures var ss := Weave(Script(w, o), foreign);
            && IsRun(c, p, ss)
            && After(c, p, ss).table == Played(c, w, p.workers[w], p.table, Script(w, o), gaps)
            && w in After(c, p, ss).workers && After(c, p, ss).workers[w].Idle?
  {
    ScriptIsLocalRun(p.workers[w], w, o);
    PlayedIsTheRun(c, p, w, Script(w, o), foreign, gaps);
    ScriptUnderInterference(c, p, w, o, Weave(Script(w, o), foreign));
  }

  // --- The lease loop ---

  // One turn of the loop: whether the lease statement fails, and what the worker meets if it gets
  // an entry.
  datatype Round = Round(leaseFails: bool, outside: Outside)

  // The same by the steps the worker would take for the entry.
  datatype Turn = Turn(leaseFails: bool, own: seq<Step>)

  function Turns(w: string, rounds: seq<Round>): seq<Turn> {
    seq(|rounds|, i requires 0 <= i < |rounds| => Turn(rounds[i].leaseFails, Script(w, rounds[i].outside)))
  }

  // Whoever holds a fresh lease can take the steps of the turn and then is idle.
  ghost predicate Scripted(w: string, r: Turn) {
    forall b: Worker :: b.Busy? && b.stage.Fetched? ==> LocalRun(b, w, r.own)
  }

  lemma TurnsAreScripted(w: string, rounds: seq<Round>)
    ensures forall i :: 0 <= i < |rounds| ==> Scripted(w, Turns(w, rounds)[i])
  {
    forall i, b: Worker | 0 <= i < |rounds| && b.Busy? && b.stage.Fetched?
      ensures LocalRun(b, w, Turns(w, rounds)[i].own)
    {
      ScriptIsLocalRun(b, w, rounds[i].outside);
    }
  }

  // What one turn found: others' statements before the lease, the row it leased, and the gaps
  // before the steps for that row.
  datatype Log = Log(lead: Gap, leased: Option<JobId>, gaps: seq<Gap>)

  // A worker that has just leased a row.
  function Held(rows: map<JobId, Row>, id: JobId, now: int): Worker {
    Busy(id, if id in rows && rows[id].retryCount > 0 then rows[id].retryCount else 0, now + LEASE_DURATION, Fetched)
  }

  // A turn leases one top row when its statement works and a row is due, and nothing otherwise.
  ghost predicate RoundOn(w: string, r: Turn, t: Table, log: Log) {
    var found := ApplyAll(t, log.lead.stmts);
    && (log.leased.None? <==> r.leaseFails || Eligible(found.rows, log.lead.clock) == {})
    && (log.leased.Some? ==>
          && IsBatch(found.rows, log.lead.clock, 1, [log.leased.value])
          && |log.gaps| == |r.own|)
  }

  // A row leased from the table found, and the turn's steps for it.
  function LeasedTable(
    c: RetryConfig, w: string, own: seq<Step>, found: Table, now: int, id: JobId, gaps: seq<Gap>): Table
    requires |own| == |gaps|
  {
    Played(c, w, Held(found.rows, id, now), Apply(found, Lease([id], w, now, now + LEASE_DURATION)), own, gaps)
  }

  function RoundTable(c: RetryConfig, w: string, r: Turn, t: Table, log: Log): Table {
    var found := ApplyAll(t, log.lead.stmts);
    if log.leased.None? || |log.gaps| != |r.own| then found
    else LeasedTable(c, w, r.own, found, log.lead.clock, log.leased.value, log.gaps)
  }

  function LoopTable(c: RetryConfig, w: string, rounds: seq<Turn>, t: Table, logs: seq<Log>): Table
    requires |rounds| == |logs|
    decreases |logs|
  {
    if logs == [] then t
    else
      var n := |logs| - 1;
      RoundTable(c, w, rounds[n], LoopTable(c, w, rounds[..n], t, logs[..n]), logs[n])
  }

  ghost predicate Follows(c: RetryConfig, w: string, rounds: seq<Turn>, t: Table, logs: seq<Log>)
    decreases |logs|
  {
    && |rounds| == |logs|
    && (logs != [] ==>
          var n := |logs| - 1;
          && Follows(c, w, rounds[..n], t, logs[..n])
          && RoundOn(w, rounds[n], LoopTable(c, w, rounds[..n], t, logs[..n]), logs[n]))
  }

  lemma OneMoreRound(c: RetryConfig, w: string, rounds: seq<Turn>, i: nat, t: Table, logs: seq<Log>, log: Log)
    requires i < |rounds| && |logs| == i && Follows(c, w, rounds[..i], t, logs)
    requires RoundOn(w, rounds[i], LoopTable(c, w, rounds[..i], t, logs), log)
    ensures Follows(c, w, rounds[..i + 1], t, logs + [log])
    ensures LoopTable(c, w, rounds[..i + 1], t, logs + [log])
            == RoundTable(c, w, rounds[i], LoopTable(c, w, rounds[..i], t, logs), log)
  {
    var all, first := logs + [log], rounds[..i + 1];
    assert all[..i] == logs && all[i] == log;
    assert first[..i] == rounds[..i] && first[i] == rounds[i];
    assert Follows(c, w, first[..i], t, all[..i]);
    assert RoundOn(w, first[i], LoopTable(c, w, first[..i], t, all[..i]), all[i]);
  }

  // --- ... is a run of the pool, too ---

  // The steps of others that stand behind one turn's log.
  datatype Pass = Pass(lead: seq<Step>, foreign: seq<seq<Step>>)

  ghost predicate PassMatches(c: RetryConfig, p: Pool, w: string, r: Turn, log: Log, pass: Pass) {
    var q := After(c, p, pass.lead);
    && Foreign(w, pass.lead)
    && log.lead == Gap(RunStmts(c, p, pass.lead), q.now)
    && (log.leased.Some? ==>
          Matches(c, Next(c, q, Poll(w, log.leased.value)), w, r.own, pass.foreign, log.gaps))
  }

  function LeasedSteps(w: string, id: JobId, own: seq<Step>, foreign: seq<seq<Step>>): seq<Step>
    requires |own| == |foreign|
  {
    [Poll(w, id)] + Weave(own, foreign)
  }

  function PassSteps(w: string, r: Turn, log: Log, pass: Pass): seq<Step> {
    if log.leased.None? || |pass.foreign| != |r.own| then pass.lead
    else pass.lead + LeasedSteps(w, log.leased.value, r.own, pass.foreign)
  }

  lemma {:induction false} ForeignIsARun(c: RetryConfig, p: Pool, w: string, a: seq<Step>, b: seq<Step>)
    requires Foreign(w, a) && OthersEnabled(c, p, w, a + b)
    ensures IsRun(c, p, a) && OthersEnabled(c, After(c, p, a), w, b)
    decreases |a|
  {
    if a == [] {
      assert a + b == b;
    } else {
      assert (a + b)[0] == a[0] && (a + b)[1..] == a[1..] + b;
      ForeignIsARun(c, Next(c, p, a[0]), w, a[1..], b);
    }
  }

  lemma {:induction false} RunsChain(c: RetryConfig, p: Pool, a: seq<Step>, b: seq<Step>)
    requires IsRun(c, p, a) && IsRun(c, After(c, p, a), b)
    ensures IsRun(c, p, a + b)
    decreases |a|
  {
    if a == [] {
      assert a + b == b;
    } else {
      assert (a + b)[0] == a[0] && (a + b)[1..] == a[1..] + b;
      RunsChain(c, Next(c, p, a[0]), a[1..], b);
    }
  }

  // From the lease to the last step.
  lemma LeasedPartIsARun(
    c: RetryConfig, q: Pool, w: string, own: seq<Step>, id: JobId, foreign: seq<seq<Step>>, gaps: seq<Gap>)
    requires w in q.workers && q.workers[w].Idle? && IsBatch(q.table.rows, q.now, 1, [id])
    requires LocalRun(Held(q.table.rows, id, q.now), w, own)
    requires Matches(c, Next(c, q, Poll(w, id)), w, own, foreign, gaps)
    requires OthersEnabled(c, q, w, LeasedSteps(w, id, own, foreign))
    ensures var ss := LeasedSteps(w, id, own, foreign);
            && IsRun(c, q, ss)
            && w in After(c, q, ss).workers && After(c, q, ss).workers[w].Idle?
            && After(c, q, ss).table == LeasedTable(c, w, own, q.table, q.now, id, gaps)
  {
    var rest := Weave(own, foreign);
    var h := Next(c, q, Poll(w, id));
    assert ([Poll(w, id)] + rest)[0] == Poll(w, id) && ([Poll(w, id)] + rest)[1..] == rest;
    assert h.workers[w] == Held(q.table.rows, id, q.now);
    PlayedIsTheRun(c, h, w, own, foreign, gaps);
    AnyInterleavingIsARun(c, h, w, rest);
  }

  lemma LeasedRoundIsARun(
    c: RetryConfig, p: Pool, w: string, lead: seq<Step>, own: seq<Step>, id: JobId,
    foreign: seq<seq<Step>>, gaps: seq<Gap>)
    requires w in p.workers && p.workers[w].Idle? && Foreign(w, lead)
    requires var q := After(c, p, lead);
             && IsBatch(q.table.rows, q.now, 1, [id])
             && LocalRun(Held(q.table.rows, id, q.now), w, own)
             && Matches(c, Next(c, q, Poll(w, id)), w, own, foreign, gaps)
    requires OthersEnabled(c, p, w, lead + LeasedSteps(w, id, own, foreign))
    ensures var q, ss := After(c, p, lead), lead + LeasedSteps(w, id, own, foreign);
            && IsRun(c, p, ss)
            && w in After(c, p, ss).workers && After(c, p, ss).workers[w].Idle?
            && After(c, p, ss).table == LeasedTable(c, w, own, q.table, q.now, id, gaps)
  {
    ForeignKeepsWorker(c, p, w, lead);
    LeadThenRest(c, p, w, lead, LeasedSteps(w, id, own, foreign));
    LeasedPartIsARun(c, After(c, p, lead), w, own, id, foreign, gaps);
  }

  lemma EmptyRoundIsARun(c: RetryConfig, p: Pool, w: string, lead: seq<Step>)
    requires w in p.workers && Foreign(w, lead) && OthersEnabled(c, p, w, lead)
    ensures IsRun(c, p, lead)
    ensures w in After(c, p, lead).workers && After(c, p, lead).workers[w] == p.workers[w]
  {
    assert lead + [] == lead;
    ForeignIsARun(c, p, w, lead, []);
    ForeignKeepsWorker(c, p, w, lead);
  }

  // One turn, under any interference, is a run that starts and ends with the worker idle.
  lemma RoundIsARun(c: RetryConfig, p: Pool, w: string, r: Turn, log: Log, pass: Pass)
    requires w in p.workers && p.workers[w].Idle?
    requires Scripted(w, r) && RoundOn(w, r, p.table, log) && PassMatches(c, p, w, r, log, pass)
    requires OthersEnabled(c, p, w, PassSteps(w, r, log, pass))
    ensures var ss := PassSteps(w, r, log, pass);
            && IsRun(c, p, ss)
            && w in After(c, p, ss).workers && After(c, p, ss).workers[w].Idle?
            && After(c, p, ss).table == RoundTable(c, w, r, p.table, log)
  {
    TableOfRun(c, p, pass.lead);
    if log.leased.None? {
      EmptyRoundIsARun(c, p, w, pass.lead);
    } else {
      var q, id := After(c, p, pass.lead), log.leased.value;
      assert LocalRun(Held(q.table.rows, id, q.now), w, r.own);
      LeasedRoundIsARun(c, p, w, pass.lead, r.own, id, pass.foreign, log.gaps);
    }
  }

  lemma LeadThenRest(c: RetryConfig, p: Pool, w: string, lead: seq<Step>, rest: seq<Step>)
    requires Foreign(w, lead) && OthersEnabled(c, p, w, lead + rest)
    ensures OthersEnabled(c, After(c, p, lead), w, rest)
    ensures After(c, p, lead + rest) == After(c, After(c, p, lead), rest)
    ensures IsRun(c, After(c, p, lead), rest) ==> IsRun(c, p, lead + rest)
  {
    ForeignIsARun(c, p, w, lead, rest);
    AfterChain(c, p, lead, rest);
    if IsRun(c, After(c, p, lead), rest) {
      RunsChain(c, p, lead, rest);
    }
  }

  function LoopSteps(w: string, rounds: seq<Turn>, logs: seq<Log>, passes: seq<Pass>): seq<Step>
    requires |rounds| == |logs| == |passes|
    decreases |passes|
  {
    if passes == [] then []
    else
      var n := |passes| - 1;
      LoopSteps(w, rounds[..n], logs[..n], passes[..n]) + PassSteps(w, rounds[n], logs[n], passes[n])
  }

  ghost predicate LoopMatches(c: RetryConfig, p: Pool, w: string, rounds: seq<Turn>, logs: seq<Log>, passes: seq<Pass>)
    decreases |passes|
  {
    && |rounds| == |logs| == |passes|
    && (passes != [] ==>
          var n := |passes| - 1;
          var q := After(c, p, LoopSteps(w, rounds[..n], logs[..n], passes[..n]));
          && LoopMatches(c, p, w, rounds[..n], logs[..n], passes[..n])
          && PassMatches(c, q, w, rounds[n], logs[n], passes[n])
          && OthersEnabled(c, q, w, PassSteps(w, rounds[n], logs[n], passes[n])))
  }

  // The whole loop, whatever it meets and whatever others do meanwhile, is one run of the pool,
  // and the table its code leaves is that run's.
  lemma {:induction false} LoopIsARun(
    c: RetryConfig, p: Pool, w: string, rounds: seq<Turn>, logs: seq<Log>, passes: seq<Pass>)
    requires w in p.workers && p.workers[w].Idle?
    requires forall i :: 0 <= i < |rounds| ==> Scripted(w, rounds[i])
    requires Follows(c, w, rounds, p.table, logs) && LoopMatches(c, p, w, rounds, logs, passes)
    ensures var ss := LoopSteps(w, rounds, logs, passes);
            && IsRun(c, p, ss)
            && w in After(c, p, ss).workers && After(c, p, ss).workers[w].Idle?
            && After(c, p, ss).table == LoopTable(c, w, rounds, p.table, logs)
    decreases |passes|
  {
    if passes != [] {
      var n := |passes| - 1;
      var before := LoopSteps(w, rounds[..n], logs[..n], passes[..n]);
      LoopIsARun(c, p, w, rounds[..n], logs[..n], passes[..n]);
      RoundIsARun(c, After(c, p, before), w, rounds[n], logs[n], passes[n]);
      RunsChain(c, p, before, PassSteps(w, rounds[n], logs[n], passes[n]));
      AfterChain(c, p, before, PassSteps(w, rounds[n], logs[n], passes[n]));
    }
  }

  predicate NoNegativeRetries(rows: map<JobId, Row>) {
    forall id :: id in rows ==> rows[id].retryCount >= 0
  }

  lemma {:induction false} RetriesStayCounts(t: Table, ss: seq<Stmt>)
    requires NoNegativeRetries(t.rows)
    ensures NoNegativeRetries(ApplyAll(t, ss).rows)
    decreases |ss|
  {
    if ss != [] {
      RetriesStayCounts(Apply(t, ss[0]), ss[1..]);
    }
  }

  lemma {:induction false} PlayedRetriesStayCounts(
    c: RetryConfig, w: string, b: Worker, t: Table, own: seq<Step>, gaps: seq<Gap>)
    requires |own| == |gaps| && NoNegativeRetries(t.rows)
    ensures NoNegativeRetries(Played(c, w, b, t, own, gaps).rows)
    decreases |own|
  {
    if own != [] {
      var found, s := ApplyAll(t, gaps[0].stmts), OwnStmt(c, w, b, gaps[0].clock, own[0]);
      RetriesStayCounts(t, gaps[0].stmts);
      PlayedRetriesStayCounts(c, w, LocalNext(b, own[0]), ApplyIf(found, s), own[1..], gaps[1..]);
    }
  }

  lemma RoundRetriesStayCounts(c: RetryConfig, w: string, r: Turn, t: Table, log: Log)
    requires NoNegativeRetries(t.rows)
    ensures NoNegativeRetries(RoundTable(c, w, r, t, log).rows)
  {
    var found, now := ApplyAll(t, log.lead.stmts), log.lead.clock;
    RetriesStayCounts(t, log.lead.stmts);
    if log.leased.Some? && |log.gaps| == |r.own| {
      var id := log.leased.value;
      PlayedRetriesStayCounts(c, w, Held(found.rows, id, now), Apply(found, Lease([id], w, now, now + LEASE_DURATION)),
                              r.own, log.gaps);
    }
  }

  lemma LeasedIsRemembered(found: Table, ids: seq<JobId>, w: string, now: int, entry: Row)
    requires NoNegativeRetries(found.rows) && IsBatch(found.rows, now, 1, ids) && ids != []
    requires var rows := Apply(found, Lease(ids, w, now, now + LEASE_DURATION)).rows;
             ids[0] in rows && entry == rows[ids[0]].(errorMessage := None)
    ensures Held(found.rows, ids[0], now).retrySeen == entry.retryCount
  {
  }

  // --- The code ---

  class PoolWorker {
    const name: string
    const c: RetryConfig
    const db: QueueEngine.Engine

    constructor (name: string, c: RetryConfig, db: QueueEngine.Engine)
      ensures this.name == name && this.c == c && this.db == db
    {
      this.name, this.c, this.db := name, c, db;
    }

    // What the worker remembers of the row it leased.
    ghost predicate Remembers(b: Worker, id: JobId, entry: Row, stage: Stage) {
      b.Busy? && b.id == id && b.retrySeen == entry.retryCount && b.stage == stage
    }

    // Others get the writer first: any statements, in any number, and the clock moves.
    method Meanwhile() returns (now: int, ghost gap: Gap)
      modifies db
      ensures db.Snapshot() == ApplyAll(old(db.Snapshot()), gap.stmts) && gap.clock == now
    {
      var stmts: seq<Stmt> := *;
      now := *;
      gap := Gap(stmts, now);
      for i := 0 to |stmts|
        invariant ApplyAll(db.Snapshot(), stmts[i..]) == ApplyAll(old(db.Snapshot()), stmts)
      {
        assert stmts[i..][0] == stmts[i] && stmts[i..][1..] == stmts[i + 1..];
        db.Execute(stmts[i]);
      }
    }

    // A state write whose error nobody looks at.
    method Update(id: JobId, state: JobState, message: string, saved: bool) returns (ghost gap: Gap)
      modifies db
      ensures db.Snapshot() == ApplyIf(ApplyAll(old(db.Snapshot()), gap.stmts),
                                       if saved then Some(UpdateState(id, state, message)) else None)
    {
      var now;
      now, gap := Meanwhile();
      if saved {
        db.UpdateJobState(id, state, message);
      }
    }

    // A requeue, likewise.
    method Requeue(id: JobId, delay: int, message: string, saved: bool) returns (ghost gap: Gap)
      modifies db
      ensures db.Snapshot() == ApplyIf(ApplyAll(old(db.Snapshot()), gap.stmts),
                                       if saved then Some(Stmt.Backoff(id, gap.clock + delay, message)) else None)
    {
      var now;
      now, gap := Meanwhile();
      if saved {
        db.RequeueWithBackoff(id, now, delay, message);
      }
    }

    method HandleFailure(id: JobId, entry: Row, err: Err, o: Outside, ghost b: Worker) returns (ghost gap: Gap)
      requires Remembers(b, id, entry, Probing) || Remembers(b, id, entry, Encoding)
      modifies db
      ensures db.Snapshot() == ApplyIf(ApplyAll(old(db.Snapshot()), gap.stmts),
                                       OwnStmt(c, name, b, gap.clock, FailureStep(name, err, o)))
      // of a row nobody else touches: a crash, and a failure on the last attempt, park it
      ensures Undisturbed(old(db.Snapshot()), id, [gap]) ==>
        id in db.rows && FailureLeaves(c, entry.retryCount, gap.clock, err, o.savedLast, old(db.rows)[id], db.rows[id])
    {
      if err.isCanceled || Contains(err.text, "context canceled") {
        var _, g := Meanwhile();
        gap := g;
      } else if IsSegfault(err.text) {
        gap := Update(id, PermanentlyFailed, err.text, o.savedLast);
      } else {
        var maxRetries := c.maxAttempts;
        if maxRetries <= 0 {
          maxRetries := 3;
        }
        if entry.retryCount < maxRetries {
          var base := c.baseInterval;
          if base <= 0 {
            base := 15_000_000_000;
          }
          var backoff := (base * Pow2(entry.retryCount)) as real;
          var jitter := RandJitter(backoff * 0.2, o.draw);
          var delay := (backoff + jitter).Floor;
          gap := Requeue(id, delay, err.text, o.savedLast);
        } else {
          gap := Update(id, PermanentlyFailed, err.text, o.savedLast);
        }
      }
      FailureWrites(c, name, b, gap.clock, err, o);
      if Undisturbed(old(db.Snapshot()), id, [gap]) {
        FailureOnRow(c, name, b, old(db.Snapshot()), err, o, gap);
      }
    }

    method RandJitter(maxJitter: real, draw: Ratio) returns (jitter: real)
      ensures jitter == Jitter(maxJitter, draw)
      ensures 0.0 <= jitter <= JitterBound(maxJitter)
    {
      JitterWithin(maxJitter, draw);
      if maxJitter <= 0.0 {
        return 0.0;
      }
      jitter := draw * maxJitter;
    }

    // The last step of a transcode.
    method Conclude(id: JobId, entry: Row, o: Outside, ghost b: Worker) returns (ghost gap: Gap)
      requires Remembers(b, id, entry, Encoding)
      modifies db
      ensures db.Snapshot() == ApplyIf(ApplyAll(old(db.Snapshot()), gap.stmts),
                                       OwnStmt(c, name, b, gap.clock, EncodeStep(name, o)))
    {
      if o.preCheck.Rejected? {
        gap := Update(id, Skipped, o.preCheck.note, o.savedLast);
        return;
      }
      match o.encode {
        case NoPermit(err) =>
          gap := HandleFailure(id, entry, Err("semaphore acquisition failed: " + err.text, err.isCanceled), o, b);
        case ExecuteFails(err) =>
          gap := HandleFailure(id, entry, Err("transcode execution error: " + err.text, err.isCanceled), o, b);
        case GrewTooMuch(reason) => gap := Update(id, Skipped, reason, o.savedLast);
        case QualityRejected(reason) => gap := Update(id, QualityFailed, reason, o.savedLast);
        case Encoded => gap := Update(id, Completed, "", o.savedLast);
      }
    }

    method ExecuteTranscode(id: JobId, entry: Row, o: Outside, ghost b: Worker) returns (ghost gaps: seq<Gap>)
      requires Remembers(b, id, entry, Probing)
      modifies db
      ensures |gaps| == 2
      ensures db.Snapshot()
           == Played(c, name, b, old(db.Snapshot()), [Advance(name, o.savedTranscoding), EncodeStep(name, o)], gaps)
      // of a row nobody else touches, whose last write is saved
      ensures Undisturbed(old(db.Snapshot()), id, gaps) && InFlight(old(db.rows)[id].state) && o.savedLast ==>
        && id in db.rows
        && (db.rows[id].state.Completed? <==> !o.preCheck.Rejected? && o.encode.Encoded?)
        && (db.rows[id].state.QualityFailed? <==> !o.preCheck.Rejected? && o.encode.QualityRejected?)
        && (db.rows[id].state.Skipped? <==> o.preCheck.Rejected? || o.encode.GrewTooMuch?)
        && !db.rows[id].state.ReviewRequired?
    {
      ghost var first := Advance(name, o.savedTranscoding);
      ghost var g0 := Update(id, Transcoding, "", o.savedTranscoding);
      ghost var mid := db.Snapshot();
      ghost var g1 := Conclude(id, entry, o, LocalNext(b, first));
      gaps := [g0] + [g1];
      PlayedMore(c, name, b, old(db.Snapshot()), first, g0, [EncodeStep(name, o)], [g1]);
      PlayedOne(c, name, LocalNext(b, first), mid, EncodeStep(name, o), g1);
      assert [first] + [EncodeStep(name, o)] == [first, EncodeStep(name, o)];
      if Undisturbed(old(db.Snapshot()), id, gaps) {
        TranscodeOnRow(c, name, b, old(db.Snapshot()), o, gaps);
        if InFlight(old(db.rows)[id].state) && o.savedLast {
          OutcomesOfTranscode(c, o, entry.retryCount, gaps[1].clock,
                              Written(old(db.rows)[id], Transcoding, "", o.savedTranscoding), db.rows[id]);
        }
      }
    }

    method Decide(id: JobId, entry: Row, o: Outside, ghost b: Worker) returns (ghost gaps: seq<Gap>)
      requires Remembers(b, id, entry, Probing)
      modifies db
      ensures |gaps| == |DecisionScript(name, o)|
      ensures db.Snapshot() == Played(c, name, b, old(db.Snapshot()), DecisionScript(name, o), gaps)
    {
      ghost var gap;
      match o.evaluation {
        case EvaluationFails(err) =>
          gap := HandleFailure(id, entry, Err("evaluation failed: " + err.text, err.isCanceled), o, b);
        case Decided(action, rule, needsReview, reviewReason) =>
          if action == "skip" {
            gap := Update(id, Skipped, rule, o.savedLast);
          } else if action == "review" {
            gap := Update(id, ReviewRequired, "flagged for review", o.savedLast);
          } else if action == "copy" {
            gap := Update(id, Completed, "stream copied", o.savedLast);
          } else if action == "transcode" {
            if needsReview {
              gap := Update(id, ReviewRequired, reviewReason, o.savedLast);
            } else {
              gaps := ExecuteTranscode(id, entry, o, b);
              return;
            }
          } else {
            // no such action: the worker moves on without a write
            var _, g := Meanwhile();
            gap := g;
          }
      }
      gaps := [gap];
      PlayedOne(c, name, b, old(db.Snapshot()), DecisionScript(name, o)[0], gap);
    }

    // Whatever others do meanwhile, what this entry gets from the worker is its script.
    method ProcessEntry(id: JobId, entry: Row, o: Outside, ghost b: Worker) returns (ghost gaps: seq<Gap>)
      requires Remembers(b, id, entry, Fetched)
      modifies db
      ensures |gaps| == |Script(name, o)| > 0
      ensures db.Snapshot() == Played(c, name, b, old(db.Snapshot()), Script(name, o), gaps)
      // of a row nobody else touches
      ensures Undisturbed(old(db.Snapshot()), id, gaps) ==>
        id in db.rows && PassLeaves(c, o, entry.retryCount, gaps[|gaps| - 1].clock, old(db.rows)[id], db.rows[id])
      // and if the last write is saved
      ensures Undisturbed(old(db.Snapshot()), id, gaps) && InFlight(old(db.rows)[id].state) && o.savedLast ==>
        var action := if !o.crunched && o.evaluation.Decided? then o.evaluation.action else "";
        var transcodes := action == "transcode" && !o.evaluation.needsReview && !o.preCheck.Rejected?;
        && (db.rows[id].state.Completed? <==> action == "copy" || (transcodes && o.encode.Encoded?))
        && (db.rows[id].state.QualityFailed? <==> transcodes && o.encode.QualityRejected?)
        && (db.rows[id].state.Skipped? <==>
              || o.crunched || action == "skip"
              || (action == "transcode" && !o.evaluation.needsReview && o.preCheck.Rejected?)
              || (action == "transcode" && !o.evaluation.needsReview && o.encode.GrewTooMuch?))
        && (db.rows[id].state.ReviewRequired? <==>
              action == "review" || (action == "transcode" && o.evaluation.needsReview))
    {
      if o.crunched {
        ghost var gap := Update(id, Skipped, CRUNCHED_NOTE, o.savedLast);
        gaps := [gap];
        PlayedOne(c, name, b, old(db.Snapshot()), Script(name, o)[0], gap);
      } else {
        ghost var first := Advance(name, o.savedEvaluating);
        ghost var g0 := Update(id, Evaluating, "", o.savedEvaluating);
        ghost var rest := Decide(id, entry, o, LocalNext(b, first));
        gaps := [g0] + rest;
        PlayedMore(c, name, b, old(db.Snapshot()), first, g0, DecisionScript(name, o), rest);
      }
      if Undisturbed(old(db.Snapshot()), id, gaps) {
        PassOnRow(c, name, b, old(db.Snapshot()), o, gaps);
        if InFlight(old(db.rows)[id].state) && o.savedLast {
          OutcomesOfPass(c, o, entry.retryCount, gaps[|gaps| - 1].clock, old(db.rows)[id], db.rows[id]);
        }
      }
    }

    method OneRound(r: Round) returns (ghost log: Log)
      requires NoNegativeRetries(db.rows)
      modifies db
      ensures RoundOn(name, Turn(r.leaseFails, Script(name, r.outside)), old(db.Snapshot()), log)
      ensures db.Snapshot()
           == RoundTable(c, name, Turn(r.leaseFails, Script(name, r.outside)), old(db.Snapshot()), log)
    {
      var now;
      ghost var lead;
      now, lead := Meanwhile();
      RetriesStayCounts(old(db.Snapshot()), lead.stmts);
      log := Log(lead, None, []);
      if r.leaseFails {
        return;
      }
      ghost var found := db.Snapshot();
      var entries, ids := db.LeaseBatch(name, 1, now, 30 * 60 * 1_000_000_000);
      if |entries| == 0 {
        assert ids == [] && db.Snapshot() == found;
        return;
      }
      assert ids == [ids[0]];
      ghost var b := Held(found.rows, ids[0], now);
      LeasedIsRemembered(found, ids, name, now, entries[0]);
      ghost var gaps := ProcessEntry(ids[0], entries[0], r.outside, b);
      log := Log(lead, Some(ids[0]), gaps);
    }

    // The worker goroutine until it is stopped.
    method Run(rounds: seq<Round>) returns (ghost logs: seq<Log>)
      requires NoNegativeRetries(db.rows)
      modifies db
      ensures Follows(c, name, Turns(name, rounds), old(db.Snapshot()), logs)
      ensures db.Snapshot() == LoopTable(c, name, Turns(name, rounds), old(db.Snapshot()), logs)
    {
      ghost var start, turns := db.Snapshot(), Turns(name, rounds);
      logs := [];
      for i := 0 to |rounds|
        invariant |logs| == i && Follows(c, name, turns[..i], start, logs)
        invariant db.Snapshot() == LoopTable(c, name, turns[..i], start, logs)
        invariant NoNegativeRetries(db.rows)
      {
        ghost var before := db.Snapshot();
        ghost var log := OneRound(rounds[i]);
        OneMoreRound(c, name, turns, i, start, logs, log);
        RoundRetriesStayCounts(c, name, turns[i], before, log);
        logs := logs + [log];
      }
      assert turns[..|turns|] == turns;
    }
  }
}
