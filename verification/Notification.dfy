// The notification engine: a bounded channel, a dispatcher that batches, and the summary each
// batch sends to every adapter that wants it.
module Notification {
  import opened Wrappers
  import opened Sequences

  const CHANNEL_CAPACITY: nat := 500
  const DEFAULT_BATCH: nat := 10

  // savedBytes and vmaf are the payload's two entries, when it has them with the right type.
  datatype Event = Event(id: int, kind: string, savedBytes: Option<int>, vmaf: Option<real>)

  datatype Adapter = Adapter(name: string, wantsSummaries: bool)

  datatype Summary = Summary(total: nat, completed: nat, failed: nat, savedBytes: int, averageVmaf: real)

  datatype Delivery = Delivery(eventId: int, channel: string, delivered: bool, detail: string)

  datatype DeadLetter = DeadLetter(eventId: int, summary: Summary, reason: string)

  // What the outside does, by number of the flush and position of the adapter: the clock reading
  // that names the batch, why a send was refused if it was, and which database writes go through.
  datatype World = World(
    stamp: int -> int,
    refusal: (int, int) -> Option<string>,
    letterSaved: (int, int) -> bool,
    recordSaved: (int, int) -> bool)

  function BatchLimit(configured: int): nat {
    if configured <= 0 then DEFAULT_BATCH else configured
  }

  // --- The flow of events ---

  // What the select statement, or a thread that dispatches, does next.
  datatype Turn = Arrive(e: Event) | Receive | Tick

  datatype Flow = Flow(incoming: seq<Event>, batch: seq<Event>, flushed: seq<seq<Event>>, accepted: seq<Event>)

  function Flushing(f: Flow): Flow {
    if f.batch == [] then f else f.(batch := [], flushed := f.flushed + [f.batch])
  }

  function Next(f: Flow, t: Turn, max: nat): Flow {
    match t
    case Arrive(e) =>
      if |f.incoming| < CHANNEL_CAPACITY
      then f.(incoming := f.incoming + [e], accepted := f.accepted + [e])
      else f
    case Receive =>
      if f.incoming == [] then f
      else
        var g := f.(incoming := f.incoming[1..], batch := f.batch + [f.incoming[0]]);
        if |g.batch| >= max then Flushing(g) else g
    case Tick => Flushing(f)
  }

  function After(f: Flow, turns: seq<Turn>, max: nat): Flow
    decreases |turns|
  {
    if turns == [] then f else Next(After(f, turns[..|turns| - 1], max), turns[|turns| - 1], max)
  }

  // Every accepted event is in exactly one place, in order of arrival.
  predicate Conserved(f: Flow) {
    f.accepted == Flatten(f.flushed) + f.batch + f.incoming
  }

  predicate BatchesFit(f: Flow, max: nat) {
    && |f.batch| < max
    && |f.incoming| <= CHANNEL_CAPACITY
    && forall i :: 0 <= i < |f.flushed| ==> 1 <= |f.flushed[i]| <= max
  }

  lemma StepConserves(f: Flow, t: Turn, max: nat)
    requires Conserved(f) && BatchesFit(f, max)
    ensures Conserved(Next(f, t, max)) && BatchesFit(Next(f, t, max), max)
  {
    match t
    case Arrive(_) =>
    case Receive =>
      if f.incoming != [] {
        assert f.incoming == [f.incoming[0]] + f.incoming[1..];
        FlattenAppend(f.flushed, f.batch + [f.incoming[0]]);
      }
    case Tick => FlattenAppend(f.flushed, f.batch);
  }

  // In every run, at every moment.
  lemma {:induction false} RunConserves(f: Flow, turns: seq<Turn>, max: nat)
    requires Conserved(f) && BatchesFit(f, max)
    ensures Conserved(After(f, turns, max)) && BatchesFit(After(f, turns, max), max)
    decreases |turns|
  {
    if turns != [] {
      RunConserves(f, turns[..|turns| - 1], max);
      StepConserves(After(f, turns[..|turns| - 1], max), turns[|turns| - 1], max);
    }
  }

  // What each turn does: an event is accepted while fewer than 500 wait, a batch is flushed when it
  // is full or at a tick, and a tick leaves nothing pending.
  lemma TurnsDo(f: Flow, t: Turn, max: nat)
    ensures var g := Next(f, t, max);
            && g.accepted == (if t.Arrive? && |f.incoming| < 500 then f.accepted + [t.e] else f.accepted)
            && (g.flushed != f.flushed <==>
                  || (t.Tick? && f.batch != [])
                  || (t.Receive? && f.incoming != [] && |f.batch| + 1 >= max))
            && (g.flushed != f.flushed ==>
                  && g.batch == []
                  && g.flushed == f.flushed + [if t.Receive? then f.batch + [f.incoming[0]] else f.batch])
            && (t.Tick? ==> g.batch == [])
            && (t.Receive? && f.incoming != [] ==> g.incoming == f.incoming[1..])
  {
    assert |f.flushed + [f.batch]| == |f.flushed| + 1;
  }

  // Stopping flushes the batch but leaves the channel: nothing accepted is lost exactly when the
  // channel happens to be empty.
  lemma StopDeliversAllIff(f: Flow, turns: seq<Turn>, max: nat)
    requires Conserved(f) && BatchesFit(f, max)
    ensures var g := After(f, turns, max);
            && Flushing(g).accepted == Flatten(Flushing(g).flushed) + g.incoming
            && (Flatten(Flushing(g).flushed) == g.accepted <==> g.incoming == [])
  {
    RunConserves(f, turns, max);
    var g := After(f, turns, max);
    FlattenAppend(g.flushed, g.batch);
    assert |g.accepted| == |Flatten(Flushing(g).flushed)| + |g.incoming|;
  }

  lemma StopMayLoseAnEvent(e: Event, max: nat)
    ensures var g := Flushing(After(Flow([], [], [], []), [Arrive(e)], max));
            g.accepted == [e] && g.flushed == []
  {
    assert [Arrive(e)][..0] == [];
  }

  function Arrivals(turns: seq<Turn>): seq<Event>
    decreases |turns|
  {
    if turns == [] then []
    else
      var last := turns[|turns| - 1];
      Arrivals(turns[..|turns| - 1]) + (if last.Arrive? then [last.e] else [])
  }

  // An event is dropped only once the channel has been filled.
  lemma {:induction false} NothingDroppedWithinCapacity(f: Flow, turns: seq<Turn>, max: nat)
    requires |f.incoming| + |Arrivals(turns)| <= CHANNEL_CAPACITY
    ensures After(f, turns, max).accepted == f.accepted + Arrivals(turns)
    ensures |After(f, turns, max).incoming| <= |f.incoming| + |Arrivals(turns)|
    decreases |turns|
  {
    if turns != [] {
      NothingDroppedWithinCapacity(f, turns[..|turns| - 1], max);
    }
  }

  // --- The summary of a batch ---

  function Count(batch: seq<Event>, kind: string): nat {
    if batch == [] then 0 else (if batch[0].kind == kind then 1 else 0) + Count(batch[1..], kind)
  }

  function Saving(e: Event): int {
    if e.kind == "job_completed" && e.savedBytes.Some? then e.savedBytes.value else 0
  }

  function Saved(batch: seq<Event>): int {
    if batch == [] then 0 else Saving(batch[0]) + Saved(batch[1..])
  }

  predicate HasScore(e: Event) {
    e.kind == "job_completed" && e.vmaf.Some? && e.vmaf.value > 0.0
  }

  function Scores(batch: seq<Event>): (s: seq<real>)
    ensures forall i :: 0 <= i < |s| ==> s[i] > 0.0
  {
    if batch == [] then [] else (if HasScore(batch[0]) then [batch[0].vmaf.value] else []) + Scores(batch[1..])
  }

  function Sum(xs: seq<real>): real {
    if xs == [] then 0.0 else xs[0] + Sum(xs[1..])
  }

  function Mean(xs: seq<real>): real {
    if xs == [] then 0.0 else Sum(xs) / |xs| as real
  }

  function SummaryOf(batch: seq<Event>): Summary {
    Summary(|batch|, Count(batch, "job_completed"), Count(batch, "job_failed"), Saved(batch), Mean(Scores(batch)))
  }

  lemma {:induction false} SavedAppend(a: seq<Event>, b: seq<Event>)
    ensures Saved(a + b) == Saved(a) + Saved(b)
  {
    if a == [] {
      assert a + b == b;
    } else {
      assert (a + b)[1..] == a[1..] + b;
      SavedAppend(a[1..], b);
    }
  }

  lemma {:induction false} CountAppend(a: seq<Event>, b: seq<Event>, kind: string)
    ensures Count(a + b, kind) == Count(a, kind) + Count(b, kind)
  {
    if a == [] {
      assert a + b == b;
    } else {
      assert (a + b)[1..] == a[1..] + b;
      CountAppend(a[1..], b, kind);
    }
  }

  lemma {:induction false} ScoresAppend(a: seq<Event>, b: seq<Event>)
    ensures Scores(a + b) == Scores(a) + Scores(b)
  {
    if a == [] {
      assert a + b == b;
    } else {
      assert (a + b)[1..] == a[1..] + b;
      ScoresAppend(a[1..], b);
    }
  }

  lemma OneMore(batch: seq<Event>, i: nat)
    requires i < |batch|
    ensures Saved(batch[..i + 1]) == Saved(batch[..i]) + Saving(batch[i])
    ensures Scores(batch[..i + 1])
         == if HasScore(batch[i]) then Scores(batch[..i]) + [batch[i].vmaf.value] else Scores(batch[..i])
    ensures forall kind :: Count(batch[..i + 1], kind)
                        == Count(batch[..i], kind) + (if batch[i].kind == kind then 1 else 0)
  {
    var before, e := batch[..i], [batch[i]];
    assert batch[..i + 1] == before + e && e[1..] == [];
    SavedAppend(before, e);
    ScoresAppend(before, e);
    assert Saved(e) == Saving(batch[i]);
    assert Scores(e) == if HasScore(batch[i]) then [batch[i].vmaf.value] else [];
    assert Scores(before) + [] == Scores(before);
    forall kind
      ensures Count(batch[..i + 1], kind) == Count(before, kind) + (if batch[i].kind == kind then 1 else 0)
    {
      CountAppend(before, e, kind);
      assert Count(e, kind) == (if e[0].kind == kind then 1 else 0) + Count(e[1..], kind);
    }
  }

  lemma {:induction false} SumAppend(xs: seq<real>, x: real)
    ensures Sum(xs + [x]) == Sum(xs) + x
  {
    if xs == [] {
      assert [x][1..] == [];
    } else {
      assert (xs + [x])[1..] == xs[1..] + [x];
      SumAppend(xs[1..], x);
    }
  }

  lemma {:induction false} SummariesAppend(batches: seq<seq<Event>>, last: seq<Event>)
    ensures Summaries(batches + [last]) == Summaries(batches) + [SummaryOf(last)]
  {
    if batches == [] {
      assert [last][1..] == [];
    } else {
      SummariesAppend(batches[1..], last);
      assert (batches + [last])[1..] == batches[1..] + [last];
    }
  }

  function SavedInAll(summaries: seq<Summary>): int {
    if summaries == [] then 0 else summaries[0].savedBytes + SavedInAll(summaries[1..])
  }

  function CompletedInAll(summaries: seq<Summary>): nat {
    if summaries == [] then 0 else summaries[0].completed + CompletedInAll(summaries[1..])
  }

  function Summaries(batches: seq<seq<Event>>): seq<Summary> {
    if batches == [] then [] else [SummaryOf(batches[0])] + Summaries(batches[1..])
  }

  // However the events were cut into batches, the summaries report the same totals.
  lemma {:induction false} TotalsIgnoreBatching(batches: seq<seq<Event>>)
    ensures SavedInAll(Summaries(batches)) == Saved(Flatten(batches))
    ensures CompletedInAll(Summaries(batches)) == Count(Flatten(batches), "job_completed")
  {
    if batches != [] {
      TotalsIgnoreBatching(batches[1..]);
      SavedAppend(batches[0], Flatten(batches[1..]));
      CountAppend(batches[0], Flatten(batches[1..]), "job_completed");
      assert Summaries(batches)[1..] == Summaries(batches[1..]);
    }
  }

  // What the summary of a batch is, event by event: with SavedAppend, CountAppend and ScoresAppend
  // this fixes it.
  lemma SummaryOfOne(e: Event)
    ensures var s, done := SummaryOf([e]), e.kind == "job_completed";
            && s.total == 1
            && s.completed == (if done then 1 else 0)
            && s.failed == (if e.kind == "job_failed" then 1 else 0)
            && s.savedBytes == (if done && e.savedBytes.Some? then e.savedBytes.value else 0)
            && s.averageVmaf == (if done && e.vmaf.Some? && e.vmaf.value > 0.0 then e.vmaf.value else 0.0)
  {
    assert [e][0] == e && [e][1..] == [];
    assert Count([e], "job_completed") == (if e.kind == "job_completed" then 1 else 0) + Count([], "job_completed");
    assert Count([e], "job_failed") == (if e.kind == "job_failed" then 1 else 0) + Count([], "job_failed");
    assert Saved([e]) == Saving(e) + Saved([]);
    assert Scores([e]) == if HasScore(e) then [e.vmaf.value] else [];
    if HasScore(e) {
      assert [e.vmaf.value][1..] == [];
      assert Sum([e.vmaf.value]) == e.vmaf.value;
      assert Mean([e.vmaf.value]) == e.vmaf.value / 1.0;
    }
  }

  // The average of two batches together is that of their scores together.
  lemma AverageTimesCount(batch: seq<Event>)
    ensures SummaryOf(batch).averageVmaf * |Scores(batch)| as real == Sum(Scores(batch))
  {
    var xs := Scores(batch);
    if xs != [] {
      QuotientTimes(Sum(xs), |xs| as real);
    }
  }

  lemma QuotientTimes(s: real, n: real)
    requires n != 0.0
    ensures s / n * n == s
  {
  }

  predicate Bare(e: Event) {
    e.savedBytes.None? && e.vmaf.None?
  }

  // The worker pool's own events carry no such payload, and then nothing is reported as saved.
  lemma {:induction false} BareEventsReportNothing(batch: seq<Event>)
    requires forall i :: 0 <= i < |batch| ==> Bare(batch[i])
    ensures SummaryOf(batch).savedBytes == 0 && SummaryOf(batch).averageVmaf == 0.0
    ensures Scores(batch) == []
  {
    if batch != [] {
      assert Bare(batch[0]);
      BareEventsReportNothing(batch[1..]);
    }
  }

  lemma {:induction false} SumWithin(xs: seq<real>, lo: real, hi: real)
    requires forall i :: 0 <= i < |xs| ==> lo <= xs[i] <= hi
    ensures lo * |xs| as real <= Sum(xs) <= hi * |xs| as real
  {
    if xs != [] {
      SumWithin(xs[1..], lo, hi);
      assert |xs| as real == |xs[1..]| as real + 1.0;
    }
  }

  // The reported average lies between the lowest and the highest score, and is zero exactly
  // when no completed job of the batch has a score.
  lemma AverageWithin(batch: seq<Event>, lo: real, hi: real)
    requires forall i :: 0 <= i < |Scores(batch)| ==> lo <= Scores(batch)[i] <= hi
    ensures Scores(batch) != [] ==> lo <= SummaryOf(batch).averageVmaf <= hi
    ensures SummaryOf(batch).averageVmaf == 0.0 <==> Scores(batch) == []
  {
    var xs := Scores(batch);
    if xs != [] {
      var n := |xs| as real;
      SumWithin(xs, lo, hi);
      SumPositive(xs);
      DivideBounds(Sum(xs), n, lo, hi);
    }
  }

  lemma {:induction false} SumPositive(xs: seq<real>)
    requires xs != [] && forall i :: 0 <= i < |xs| ==> xs[i] > 0.0
    ensures Sum(xs) > 0.0
  {
    if |xs| > 1 {
      SumPositive(xs[1..]);
    }
  }

  lemma DivideBounds(s: real, n: real, lo: real, hi: real)
    requires n > 0.0 && s > 0.0 && lo * n <= s <= hi * n
    ensures lo <= s / n <= hi && s / n > 0.0
  {
    assert s / n * n == s;
  }

  // --- What a flush writes to the database ---

  // The first k adapters' delivery records for flush n.
  function Deliveries(w: World, n: int, adapters: seq<Adapter>, k: nat): seq<Delivery>
    requires k <= |adapters|
  {
    if k == 0 then []
    else
      var a := adapters[k - 1];
      var refused := w.refusal(n, k - 1);
      Deliveries(w, n, adapters, k - 1) +
      (if !a.wantsSummaries || !w.recordSaved(n, k - 1) then []
       else if refused.Some? then [Delivery(w.stamp(n), a.name, false, refused.value)]
       else [Delivery(w.stamp(n), a.name, true, "OK")])
  }

  function Letters(w: World, n: int, adapters: seq<Adapter>, k: nat, summary: Summary): seq<DeadLetter>
    requires k <= |adapters|
  {
    if k == 0 then []
    else
      var refused := w.refusal(n, k - 1);
      Letters(w, n, adapters, k - 1, summary) +
      (if !adapters[k - 1].wantsSummaries || refused.None? || !w.letterSaved(n, k - 1) then []
       else [DeadLetter(w.stamp(n), summary, refused.value)])
  }

  // Flush n is the one of batches[n].
  function AllDeliveries(w: World, adapters: seq<Adapter>, batches: seq<seq<Event>>): seq<Delivery>
    decreases |batches|
  {
    if batches == [] then []
    else
      var n := |batches| - 1;
      AllDeliveries(w, adapters, batches[..n]) + Deliveries(w, n, adapters, |adapters|)
  }

  function AllLetters(w: World, adapters: seq<Adapter>, batches: seq<seq<Event>>): seq<DeadLetter>
    decreases |batches|
  {
    if batches == [] then []
    else
      var n := |batches| - 1;
      AllLetters(w, adapters, batches[..n]) + Letters(w, n, adapters, |adapters|, SummaryOf(batches[n]))
  }

  ghost predicate WritesSucceed(w: World) {
    forall n, a :: w.letterSaved(n, a) && w.recordSaved(n, a)
  }

  function Supporting(adapters: seq<Adapter>, k: nat): seq<string>
    requires k <= |adapters|
  {
    if k == 0 then []
    else Supporting(adapters, k - 1) + (if adapters[k - 1].wantsSummaries then [adapters[k - 1].name] else [])
  }

  lemma {:induction false} SupportersAre(adapters: seq<Adapter>, k: nat)
    requires k <= |adapters|
    ensures |Supporting(adapters, k)| == |set a | 0 <= a < k && adapters[a].wantsSummaries|
    ensures forall name :: name in Supporting(adapters, k) ==>
      exists a :: 0 <= a < k && adapters[a].wantsSummaries && adapters[a].name == name
  {
    if k > 0 {
      SupportersAre(adapters, k - 1);
      var before, now := set a | 0 <= a < k - 1 && adapters[a].wantsSummaries, set a | 0 <= a < k && adapters[a].wantsSummaries;
      assert now == if adapters[k - 1].wantsSummaries then before + {k - 1} else before;
    }
  }

  function Channels(ds: seq<Delivery>): seq<string> {
    seq(|ds|, i requires 0 <= i < |ds| => ds[i].channel)
  }

  function FailedDetails(ds: seq<Delivery>): seq<string>
    decreases |ds|
  {
    if ds == [] then []
    else
      var last := ds[|ds| - 1];
      FailedDetails(ds[..|ds| - 1]) + (if last.delivered then [] else [last.detail])
  }

  function Reasons(ls: seq<DeadLetter>): seq<string> {
    seq(|ls|, i requires 0 <= i < |ls| => ls[i].reason)
  }

  lemma {:induction false} OneRecordPerSupporter(w: World, n: int, adapters: seq<Adapter>, k: nat)
    requires WritesSucceed(w) && k <= |adapters|
    ensures Channels(Deliveries(w, n, adapters, k)) == Supporting(adapters, k)
    ensures forall d :: d in Deliveries(w, n, adapters, k) ==> d.eventId == w.stamp(n)
  {
    if k > 0 {
      OneRecordPerSupporter(w, n, adapters, k - 1);
      assert w.recordSaved(n, k - 1);
    }
  }

  lemma FailedDetailsAppend(ds: seq<Delivery>, d: Delivery)
    ensures FailedDetails(ds + [d]) == FailedDetails(ds) + (if d.delivered then [] else [d.detail])
  {
    assert (ds + [d])[..|ds|] == ds;
  }

  lemma ReasonsAppend(ls: seq<DeadLetter>, l: DeadLetter)
    ensures Reasons(ls + [l]) == Reasons(ls) + [l.reason]
  {
  }

  lemma {:induction false} OneLetterPerFailure(w: World, n: int, adapters: seq<Adapter>, k: nat, summary: Summary)
    requires WritesSucceed(w) && k <= |adapters|
    ensures FailedDetails(Deliveries(w, n, adapters, k)) == Reasons(Letters(w, n, adapters, k, summary))
    ensures forall l :: l in Letters(w, n, adapters, k, summary) ==> l.summary == summary && l.eventId == w.stamp(n)
  {
    if k > 0 {
      var a, refused := adapters[k - 1], w.refusal(n, k - 1);
      OneLetterPerFailure(w, n, adapters, k - 1, summary);
      assert w.letterSaved(n, k - 1) && w.recordSaved(n, k - 1);
      var ds, ls := Deliveries(w, n, adapters, k - 1), Letters(w, n, adapters, k - 1, summary);
      if !a.wantsSummaries {
        assert Deliveries(w, n, adapters, k) == ds && Letters(w, n, adapters, k, summary) == ls;
      } else if refused.Some? {
        FailedDetailsAppend(ds, Delivery(w.stamp(n), a.name, false, refused.value));
        ReasonsAppend(ls, DeadLetter(w.stamp(n), summary, refused.value));
      } else {
        FailedDetailsAppend(ds, Delivery(w.stamp(n), a.name, true, "OK"));
        assert Letters(w, n, adapters, k, summary) == ls;
      }
    }
  }

  // With working database writes a batch leaves one delivery record per adapter that wants
  // summaries, in order, and one dead letter, holding the batch's summary, per failed record.
  lemma EverySupporterHears(w: World, n: int, adapters: seq<Adapter>, batch: seq<Event>)
    requires WritesSucceed(w)
    ensures var ds := Deliveries(w, n, adapters, |adapters|);
            var ls := Letters(w, n, adapters, |adapters|, SummaryOf(batch));
            && Channels(ds) == Supporting(adapters, |adapters|)
            && Reasons(ls) == FailedDetails(ds)
            && (forall d :: d in ds ==> d.eventId == w.stamp(n))
            && (forall l :: l in ls ==> l.eventId == w.stamp(n) && l.summary == SummaryOf(batch))
  {
    OneRecordPerSupporter(w, n, adapters, |adapters|);
    OneLetterPerFailure(w, n, adapters, |adapters|, SummaryOf(batch));
  }

  class Engine {
    const enabled: bool
    const batchMaxSize: int
    const adapters: seq<Adapter>
    var incoming: seq<Event>
    var deliveries: seq<Delivery>
    var deadLetters: seq<DeadLetter>
    ghost var accepted: seq<Event>
    ghost var flushed: seq<seq<Event>>
    ghost var sent: seq<Summary>

    constructor (enabled: bool, batchMaxSize: int, adapters: seq<Adapter>)
      ensures this.enabled == enabled && this.batchMaxSize == batchMaxSize && this.adapters == adapters
      ensures incoming == accepted == [] && flushed == [] && sent == []
      ensures deliveries == [] && deadLetters == []
    {
      this.enabled, this.batchMaxSize, this.adapters := enabled, batchMaxSize, adapters;
      incoming, accepted, flushed, sent, deliveries, deadLetters := [], [], [], [], [], [];
    }

    ghost function FlowWith(batch: seq<Event>): Flow
      reads this
    {
      Flow(incoming, batch, flushed, accepted)
    }

    method Dispatch(e: Event)
      modifies `incoming, `accepted
      ensures !enabled || adapters == [] ==> incoming == old(incoming) && accepted == old(accepted)
      ensures enabled && adapters != [] ==>
        forall batch, max :: FlowWith(batch) == Next(old(FlowWith(batch)), Arrive(e), max)
    {
      if !enabled || |adapters| == 0 {
        return;
      }
      if |incoming| < CHANNEL_CAPACITY {
        incoming := incoming + [e];
        accepted := accepted + [e];
      }
    }

    // The counters over one batch.
    static method Totals(batch: seq<Event>) returns (s: Summary)
      ensures s == SummaryOf(batch)
    {
      var saved, completed, failed := 0, 0, 0;
      var vmafSum, vmafCount := 0.0, 0;
      for i := 0 to |batch|
        invariant saved == Saved(batch[..i])
        invariant completed == Count(batch[..i], "job_completed")
        invariant failed == Count(batch[..i], "job_failed")
        invariant vmafSum == Sum(Scores(batch[..i])) && vmafCount == |Scores(batch[..i])|
      {
        var e := batch[i];
        OneMore(batch, i);
        if e.kind == "job_completed" {
          completed := completed + 1;
          if e.savedBytes.Some? {
            saved := saved + e.savedBytes.value;
          }
          if e.vmaf.Some? && e.vmaf.value > 0.0 {
            SumAppend(Scores(batch[..i]), e.vmaf.value);
            vmafSum := vmafSum + e.vmaf.value;
            vmafCount := vmafCount + 1;
          }
        } else if e.kind == "job_failed" {
          failed := failed + 1;
        }
      }
      assert batch[..|batch|] == batch;
      var average := 0.0;
      if vmafCount > 0 {
        average := vmafSum / vmafCount as real;
      }
      s := Summary(|batch|, completed, failed, saved, average);
    }

    // What the summaries sent and the database rows say about the batches flushed.
    ghost predicate Recorded(w: World)
      reads this
    {
      && sent == Summaries(flushed)
      && deliveries == AllDeliveries(w, adapters, flushed)
      && deadLetters == AllLetters(w, adapters, flushed)
    }

    method SendToAll(w: World, n: nat, summary: Summary)
      modifies `deliveries, `deadLetters
      ensures deliveries == old(deliveries) + Deliveries(w, n, adapters, |adapters|)
      ensures deadLetters == old(deadLetters) + Letters(w, n, adapters, |adapters|, summary)
    {
      var eventId := w.stamp(n);
      for a := 0 to |adapters|
        invariant deliveries == old(deliveries) + Deliveries(w, n, adapters, a)
        invariant deadLetters == old(deadLetters) + Letters(w, n, adapters, a, summary)
      {
        if adapters[a].wantsSummaries {
          var err := w.refusal(n, a);
          if err.Some? {
            if w.letterSaved(n, a) {
              deadLetters := deadLetters + [DeadLetter(eventId, summary, err.value)];
            }
            if w.recordSaved(n, a) {
              deliveries := deliveries + [Delivery(eventId, adapters[a].name, false, err.value)];
            }
          } else if w.recordSaved(n, a) {
            deliveries := deliveries + [Delivery(eventId, adapters[a].name, true, "OK")];
          }
        }
      }
    }

    method FlushBatch(w: World, n: nat, batch: seq<Event>)
      requires n == |flushed| && Recorded(w)
      modifies `deliveries, `deadLetters, `flushed, `sent
      ensures flushed == Flushing(old(FlowWith(batch))).flushed
      ensures Recorded(w)
    {
      if |batch| == 0 {
        return;
      }
      var summary := Totals(batch);
      SendToAll(w, n, summary);
      SummariesAppend(flushed, batch);
      assert (flushed + [batch])[..n] == flushed;
      flushed := flushed + [batch];
      sent := sent + [summary];
    }

    // One pass through the select statement.
    method TakeTurn(t: Turn, w: World, pending: seq<Event>, flushes: nat, max: nat)
      returns (batch: seq<Event>, flushesAfter: nat)
      requires enabled && adapters != []
      requires flushes == |flushed| && Recorded(w)
      modifies this
      ensures FlowWith(batch) == Next(old(FlowWith(pending)), t, max)
      ensures flushesAfter == |flushed| && Recorded(w)
    {
      batch, flushesAfter := pending, flushes;
      match t {
        case Arrive(e) =>
          Dispatch(e);
        case Receive =>
          if |incoming| > 0 {
            batch := batch + [incoming[0]];
            incoming := incoming[1..];
            if |batch| >= max {
              FlushBatch(w, flushes, batch);
              batch, flushesAfter := [], flushes + 1;
            }
          }
        case Tick =>
          if |batch| > 0 {
            FlushBatch(w, flushes, batch);
            batch, flushesAfter := [], flushes + 1;
          }
      }
    }

    // One life of the dispatcher goroutine: the turns it and the dispatching threads take, then
    // the stop signal.
    method DispatcherLoop(turns: seq<Turn>, w: World)
      requires enabled && adapters != [] && flushed == [] && Recorded(w)
      modifies this
      ensures FlowWith([]) == Flushing(After(old(FlowWith([])), turns, BatchLimit(batchMaxSize)))
      ensures Recorded(w)
    {
      var max := if batchMaxSize <= 0 then 10 else batchMaxSize;
      var batch: seq<Event> := [];
      var flushes := 0;
      for i := 0 to |turns|
        invariant FlowWith(batch) == After(old(FlowWith([])), turns[..i], max)
        invariant flushes == |flushed| && Recorded(w)
      {
        assert turns[..i + 1][..i] == turns[..i] && turns[..i + 1][i] == turns[i];
        batch, flushes := TakeTurn(turns[i], w, batch, flushes, max);
      }
      assert turns[..|turns|] == turns;
      FlushBatch(w, flushes, batch);
    }
  }
}
