// The single-writer actor: callers hand requests to one goroutine over a FIFO channel, and it
// runs each in a transaction of its own.
//
// S is the stored state, Q a request and R its result.  Every interleaving of callers with the
// writer's main loop is a sequence of Steps; begin, body and commit may each fail.
module WriteActor {
  const CHANNEL_CAPACITY: nat := 500

  // What a request does if its transaction commits, and what it answers.
  type Semantics<!S, !Q, !R> = (S, Q) -> (S, R)

  datatype Reply<R> = Success(result: R) | BeginFailed | BodyFailed | CommitFailed

  // A request in flight and the call whose reply channel it carries.
  datatype Req<Q> = Req(call: nat, request: Q)

  // A ticket is a call's place in channel order, given when its send goes through.
  datatype Phase<R> = Sending | Waiting(ticket: nat) | Returned(ticket: nat, reply: Reply<R>)

  // One execWrite call.  `earlier` are the calls that had returned when it was made and `floor`
  // the number of sends by then; both are history that no step reads.
  datatype Call<Q, R> = Call(request: Q, earlier: set<nat>, floor: nat, phase: Phase<R>) {
    predicate Sent() { !phase.Sending? }

    function Ticket(): nat
      requires Sent()
    {
      phase.ticket
    }
  }

  datatype Writer<S, Q, R> =
    | Receiving
    | Got(req: Req<Q>)
    | InTx(req: Req<Q>)
    | BodyRan(req: Req<Q>, working: S, result: R)
    | Replying(req: Req<Q>, reply: Reply<R>)

  datatype Verdict = Committed | NoBegin | RolledBack | NoCommit

  datatype Served<Q> = Served(call: nat, request: Q, verdict: Verdict)

  // `served` and `sent` are history: the calls the writer has decided, and how many were sent.
  datatype System<S, Q, R> = System(
    store: S,
    channel: seq<Req<Q>>,
    writer: Writer<S, Q, R>,
    calls: map<nat, Call<Q, R>>,
    replies: map<nat, Reply<R>>,
    served: seq<Served<Q>>,
    sent: nat)

  datatype Step<Q> =
    | Invoke(call: nat, request: Q)
    | Send(call: nat)
    | Receive
    | Begin(ok: bool)
    | RunBody(ok: bool)
    | Commit(ok: bool)
    | Respond
    | Collect(call: nat)

  function Start<S, Q, R>(store: S): System<S, Q, R> {
    System(store, [], Receiving, map[], map[], [], 0)
  }

  predicate Enabled<S, Q, R>(y: System<S, Q, R>, s: Step<Q>) {
    match s
    case Invoke(i, _) => i !in y.calls
    case Send(i) => i in y.calls && y.calls[i].phase.Sending? && |y.channel| < CHANNEL_CAPACITY
    case Receive => y.writer.Receiving? && y.channel != []
    case Begin(_) => y.writer.Got?
    case RunBody(_) => y.writer.InTx?
    case Commit(_) => y.writer.BodyRan?
    case Respond => y.writer.Replying?
    case Collect(i) => i in y.calls && y.calls[i].phase.Waiting? && i in y.replies
  }

  function Decide<S, Q, R>(y: System<S, Q, R>, v: Verdict, reply: Reply<R>): System<S, Q, R>
    requires !y.writer.Receiving?
  {
    y.(writer := Replying(y.writer.req, reply),
       served := y.served + [Served(y.writer.req.call, y.writer.req.request, v)])
  }

  function Next<S, Q, R>(run: Semantics<S, Q, R>, y: System<S, Q, R>, s: Step<Q>): System<S, Q, R>
    requires Enabled(y, s)
  {
    match s
    case Invoke(i, q) =>
      var returned := set j | j in y.calls && y.calls[j].phase.Returned?;
      y.(calls := y.calls[i := Call(q, returned, y.sent, Sending)])
    case Send(i) =>
      y.(calls := y.calls[i := y.calls[i].(phase := Waiting(y.sent))],
         channel := y.channel + [Req(i, y.calls[i].request)], sent := y.sent + 1)
    case Receive => y.(writer := Got(y.channel[0]), channel := y.channel[1..])
    case Begin(ok) => if ok then y.(writer := InTx(y.writer.req)) else Decide(y, NoBegin, BeginFailed)
    case RunBody(ok) =>
      if ok then
        var (working, result) := run(y.store, y.writer.req.request);
        y.(writer := BodyRan(y.writer.req, working, result))
      else Decide(y, RolledBack, BodyFailed)
    case Commit(ok) =>
      if ok then Decide(y, Committed, Success(y.writer.result)).(store := y.writer.working)
      else Decide(y, NoCommit, CommitFailed)
    case Respond => y.(writer := Receiving, replies := y.replies[y.writer.req.call := y.writer.reply])
    case Collect(i) =>
      y.(calls := y.calls[i := y.calls[i].(phase := Returned(y.calls[i].phase.ticket, y.replies[i]))])
  }

  ghost predicate IsRun<S, Q, R>(run: Semantics<S, Q, R>, y: System<S, Q, R>, ss: seq<Step<Q>>)
    decreases |ss|
  {
    ss == [] || (Enabled(y, ss[0]) && IsRun(run, Next(run, y, ss[0]), ss[1..]))
  }

  ghost function After<S, Q, R>(run: Semantics<S, Q, R>, y: System<S, Q, R>, ss: seq<Step<Q>>): System<S, Q, R>
    requires IsRun(run, y, ss)
    decreases |ss|
  {
    if ss == [] then y else After(run, Next(run, y, ss[0]), ss[1..])
  }

  // --- The atomic account: the served calls one after another ---

  function Atomic<S, Q, R>(run: Semantics<S, Q, R>, store: S, e: Served<Q>): (S, Reply<R>) {
    match e.verdict
    case Committed => var (s, r) := run(store, e.request); (s, Success(r))
    case NoBegin => (store, BeginFailed)
    case RolledBack => (store, BodyFailed)
    case NoCommit => (store, CommitFailed)
  }

  function Fold<S, Q, R>(run: Semantics<S, Q, R>, init: S, served: seq<Served<Q>>): S
    decreases |served|
  {
    if served == [] then init
    else Atomic(run, Fold(run, init, served[..|served| - 1]), served[|served| - 1]).0
  }

  // The reply of the k-th served call, had it run alone after the first k.
  function ReplyAt<S, Q, R>(run: Semantics<S, Q, R>, init: S, served: seq<Served<Q>>, k: nat): Reply<R>
    requires k < |served|
  {
    Atomic(run, Fold(run, init, served[..k]), served[k]).1
  }

  lemma FoldAppend<S, Q, R>(run: Semantics<S, Q, R>, init: S, served: seq<Served<Q>>, e: Served<Q>)
    ensures Fold(run, init, served + [e]) == Atomic(run, Fold(run, init, served), e).0
    ensures ReplyAt(run, init, served + [e], |served|) == Atomic(run, Fold(run, init, served), e).1
    ensures forall k :: 0 <= k < |served| ==> ReplyAt(run, init, served + [e], k) == ReplyAt(run, init, served, k)
  {
    assert (served + [e])[..|served|] == served;
    assert forall k :: 0 <= k < |served| ==> (served + [e])[..k] == served[..k];
  }

  // --- What every reachable system keeps ---

  function Undecided<S, Q, R>(w: Writer<S, Q, R>): seq<Req<Q>> {
    if w.Got? || w.InTx? || w.BodyRan? then [w.req] else []
  }

  ghost predicate HoldsTicket<Q, R>(calls: map<nat, Call<Q, R>>, call: nat, request: Q, ticket: nat) {
    call in calls && calls[call].Sent() && calls[call].Ticket() == ticket && calls[call].request == request
  }

  // Tickets number the served calls, then the one being decided, then the channel.
  ghost predicate InOrder<S, Q, R>(y: System<S, Q, R>) {
    && y.sent == |y.served| + |Undecided(y.writer)| + |y.channel|
    && (forall k :: 0 <= k < |y.served| ==> HoldsTicket(y.calls, y.served[k].call, y.served[k].request, k))
    && (forall r :: r in Undecided(y.writer) ==> HoldsTicket(y.calls, r.call, r.request, |y.served|))
    && (forall j :: 0 <= j < |y.channel| ==>
          HoldsTicket(y.calls, y.channel[j].call, y.channel[j].request, |y.served| + |Undecided(y.writer)| + j))
  }

  ghost predicate StoreIsFold<S, Q, R>(run: Semantics<S, Q, R>, init: S, y: System<S, Q, R>) {
    && y.store == Fold(run, init, y.served)
    && (y.writer.BodyRan? ==> run(y.store, y.writer.req.request) == (y.writer.working, y.writer.result))
  }

  ghost predicate OwnReply<S, Q, R>(
    run: Semantics<S, Q, R>, init: S, served: seq<Served<Q>>, call: nat, k: nat, reply: Reply<R>)
  {
    k < |served| && served[k].call == call && reply == ReplyAt(run, init, served, k)
  }

  ghost predicate RepliesAreOwn<S, Q, R>(run: Semantics<S, Q, R>, init: S, y: System<S, Q, R>) {
    && (forall i :: i in y.replies ==>
          i in y.calls && y.calls[i].Sent() && OwnReply(run, init, y.served, i, y.calls[i].Ticket(), y.replies[i]))
    && (y.writer.Replying? ==>
          0 < |y.served| && OwnReply(run, init, y.served, y.writer.req.call, |y.served| - 1, y.writer.reply))
    && (forall i :: i in y.calls && y.calls[i].phase.Returned? ==>
          OwnReply(run, init, y.served, i, y.calls[i].Ticket(), y.calls[i].phase.reply))
  }

  ghost predicate TimeRespected<Q, R>(calls: map<nat, Call<Q, R>>, sent: nat) {
    && (forall i :: i in calls ==> calls[i].floor <= sent)
    && (forall i :: i in calls && calls[i].Sent() ==> calls[i].floor <= calls[i].Ticket() < sent)
    && (forall i, e :: i in calls && e in calls[i].earlier ==>
          e in calls && calls[e].Sent() && calls[e].Ticket() < calls[i].floor)
  }

  ghost predicate Inv<S, Q, R>(run: Semantics<S, Q, R>, init: S, y: System<S, Q, R>) {
    InOrder(y) && StoreIsFold(run, init, y) && RepliesAreOwn(run, init, y) && TimeRespected(y.calls, y.sent)
  }

  predicate TouchesCalls<Q>(s: Step<Q>) {
    s.Invoke? || s.Send? || s.Collect?
  }

  // The writer's own steps leave the callers alone, and the callers' steps the writer and the store.
  lemma Division<S, Q, R>(run: Semantics<S, Q, R>, y: System<S, Q, R>, s: Step<Q>)
    requires Enabled(y, s)
    ensures var z := Next(run, y, s);
            && (TouchesCalls(s) ==>
                  z.writer == y.writer && z.store == y.store && z.served == y.served && z.replies == y.replies)
            && (!TouchesCalls(s) ==> z.calls == y.calls && z.sent == y.sent)
  {
  }

  lemma KeepsInOrder<S, Q, R>(run: Semantics<S, Q, R>, y: System<S, Q, R>, s: Step<Q>)
    requires Enabled(y, s) && InOrder(y)
    ensures InOrder(Next(run, y, s))
  {
    Division(run, y, s);
    if TouchesCalls(s) {
      CallersKeepOrder(run, y, s);
    }
  }

  lemma CallersKeepOrder<S, Q, R>(run: Semantics<S, Q, R>, y: System<S, Q, R>, s: Step<Q>)
    requires Enabled(y, s) && InOrder(y) && TouchesCalls(s)
    ensures InOrder(Next(run, y, s))
  {
    Division(run, y, s);
    var z := Next(run, y, s);
    forall call: nat, q, k: nat | HoldsTicket(y.calls, call, q, k)
      ensures HoldsTicket(z.calls, call, q, k)
    {
    }
  }

  lemma InvokeKeepsTime<Q, R>(calls: map<nat, Call<Q, R>>, sent: nat, i: nat, q: Q)
    requires TimeRespected(calls, sent) && i !in calls
    ensures var returned := set j | j in calls && calls[j].phase.Returned?;
            TimeRespected(calls[i := Call(q, returned, sent, Sending)], sent)
  {
  }

  // Sending or collecting: the call keeps its history and its ticket, or gets the newest one.
  lemma PhaseKeepsTime<Q, R>(calls: map<nat, Call<Q, R>>, sent: nat, i: nat, call: Call<Q, R>, sent': nat)
    requires TimeRespected(calls, sent) && i in calls && sent <= sent'
    requires call.earlier == calls[i].earlier && call.floor == calls[i].floor && call.Sent()
    requires calls[i].Sent() ==> call.Ticket() == calls[i].Ticket()
    requires !calls[i].Sent() ==> call.Ticket() == sent < sent'
    ensures TimeRespected(calls[i := call], sent')
  {
  }

  lemma KeepsTime<S, Q, R>(run: Semantics<S, Q, R>, y: System<S, Q, R>, s: Step<Q>)
    requires Enabled(y, s) && TimeRespected(y.calls, y.sent)
    ensures TimeRespected(Next(run, y, s).calls, Next(run, y, s).sent)
  {
    var z := Next(run, y, s);
    if s.Invoke? {
      InvokeKeepsTime(y.calls, y.sent, s.call, s.request);
    } else if s.Send? || s.Collect? {
      PhaseKeepsTime(y.calls, y.sent, s.call, z.calls[s.call], z.sent);
    } else {
      Division(run, y, s);
    }
  }

  // `longer` is `served`, or `served` and one call more, with the earlier answers unchanged.
  ghost predicate Extends<S, Q, R>(
    run: Semantics<S, Q, R>, init: S, served: seq<Served<Q>>, longer: seq<Served<Q>>)
  {
    && |served| <= |longer| <= |served| + 1
    && longer[..|served|] == served
    && forall k :: 0 <= k < |served| ==> ReplyAt(run, init, longer, k) == ReplyAt(run, init, served, k)
  }

  // A step that decides a call appends it to the served ones with its atomic outcome.
  lemma DecidingStep<S, Q, R>(run: Semantics<S, Q, R>, init: S, y: System<S, Q, R>, s: Step<Q>)
    requires Enabled(y, s) && StoreIsFold(run, init, y) && (s.Begin? || s.RunBody? || s.Commit?)
    ensures var z := Next(run, y, s);
            && StoreIsFold(run, init, z)
            && z.calls == y.calls && z.replies == y.replies
            && Extends(run, init, y.served, z.served)
            && (z.writer.Replying? ==>
                  && |z.served| == |y.served| + 1
                  && z.served[|y.served|].call == z.writer.req.call
                  && z.writer.reply == ReplyAt(run, init, z.served, |y.served|))
  {
    ExtendsItself(run, init, y.served);
    DecidesAs(run, y, s);
    ExtendsByOne(run, init, y.served, Served(y.writer.req.call, y.writer.req.request, VerdictBy(s)));
  }

  // The verdict of a step that decides.
  function VerdictBy<Q>(s: Step<Q>): Verdict {
    if s.Begin? then NoBegin else if s.RunBody? then RolledBack else if s.Commit? && s.ok then Committed else NoCommit
  }

  lemma DecidesAs<S, Q, R>(run: Semantics<S, Q, R>, y: System<S, Q, R>, s: Step<Q>)
    requires Enabled(y, s) && (s.Begin? || s.RunBody? || s.Commit?)
    requires y.writer.BodyRan? ==> run(y.store, y.writer.req.request) == (y.writer.working, y.writer.result)
    ensures var z, e := Next(run, y, s), Served(y.writer.req.call, y.writer.req.request, VerdictBy(s));
            && z.calls == y.calls && z.replies == y.replies
            && (z.writer.Replying? ==>
                  && z.writer.req == y.writer.req && z.served == y.served + [e]
                  && (z.store, z.writer.reply) == Atomic(run, y.store, e))
            && (!z.writer.Replying? ==> z.served == y.served && z.store == y.store)
            && (z.writer.BodyRan? ==> run(z.store, z.writer.req.request) == (z.writer.working, z.writer.result))
  {
  }

  lemma ExtendsItself<S, Q, R>(run: Semantics<S, Q, R>, init: S, served: seq<Served<Q>>)
    ensures Extends(run, init, served, served)
  {
    assert served[..|served|] == served;
  }

  lemma ExtendsByOne<S, Q, R>(run: Semantics<S, Q, R>, init: S, served: seq<Served<Q>>, e: Served<Q>)
    ensures Extends(run, init, served, served + [e])
    ensures Fold(run, init, served + [e]) == Atomic(run, Fold(run, init, served), e).0
    ensures ReplyAt(run, init, served + [e], |served|) == Atomic(run, Fold(run, init, served), e).1
  {
    FoldAppend(run, init, served, e);
    assert (served + [e])[..|served|] == served;
  }

  lemma KeepsStore<S, Q, R>(run: Semantics<S, Q, R>, init: S, y: System<S, Q, R>, s: Step<Q>)
    requires Enabled(y, s) && StoreIsFold(run, init, y)
    ensures StoreIsFold(run, init, Next(run, y, s))
  {
    if TouchesCalls(s) {
      Division(run, y, s);
    } else if s.Begin? || s.RunBody? || s.Commit? {
      DecidingStep(run, init, y, s);
    }
  }

  lemma CallersKeepReplies<S, Q, R>(run: Semantics<S, Q, R>, init: S, y: System<S, Q, R>, s: Step<Q>)
    requires Enabled(y, s) && RepliesAreOwn(run, init, y) && TouchesCalls(s)
    ensures RepliesAreOwn(run, init, Next(run, y, s))
  {
    Division(run, y, s);
    var i, z := s.call, Next(run, y, s);
    assert z.calls == y.calls[i := z.calls[i]];
    if s.Collect? {
      assert z.calls[i].Ticket() == y.calls[i].Ticket();
    } else {
      assert i !in y.replies;
    }
  }

  lemma OwnReplyKept<S, Q, R>(
    run: Semantics<S, Q, R>, init: S, served: seq<Served<Q>>, longer: seq<Served<Q>>, call: nat, k: nat, reply: Reply<R>)
    requires OwnReply(run, init, served, call, k, reply) && Extends(run, init, served, longer)
    ensures OwnReply(run, init, longer, call, k, reply)
  {
    assert longer[..|served|][k] == longer[k];
  }

  lemma WriterKeepsReplies<S, Q, R>(run: Semantics<S, Q, R>, init: S, y: System<S, Q, R>, z: System<S, Q, R>)
    requires RepliesAreOwn(run, init, y) && Extends(run, init, y.served, z.served)
    requires z.calls == y.calls && z.replies == y.replies
    requires z.writer.Replying? ==>
               0 < |z.served| && OwnReply(run, init, z.served, z.writer.req.call, |z.served| - 1, z.writer.reply)
    ensures RepliesAreOwn(run, init, z)
  {
    forall i | i in z.replies
      ensures OwnReply(run, init, z.served, i, z.calls[i].Ticket(), z.replies[i])
    {
      OwnReplyKept(run, init, y.served, z.served, i, z.calls[i].Ticket(), z.replies[i]);
    }
    forall i | i in z.calls && z.calls[i].phase.Returned?
      ensures OwnReply(run, init, z.served, i, z.calls[i].Ticket(), z.calls[i].phase.reply)
    {
      OwnReplyKept(run, init, y.served, z.served, i, z.calls[i].Ticket(), z.calls[i].phase.reply);
    }
  }

  lemma KeepsReplies<S, Q, R>(run: Semantics<S, Q, R>, init: S, y: System<S, Q, R>, s: Step<Q>)
    requires Enabled(y, s) && Inv(run, init, y)
    ensures RepliesAreOwn(run, init, Next(run, y, s))
  {
    if TouchesCalls(s) {
      CallersKeepReplies(run, init, y, s);
    } else if s.Begin? || s.RunBody? || s.Commit? {
      DecidingStep(run, init, y, s);
      WriterKeepsReplies(run, init, y, Next(run, y, s));
    } else if s.Respond? {
      var k := |y.served| - 1;
      assert HoldsTicket(y.calls, y.served[k].call, y.served[k].request, k);
    }
  }

  lemma {:induction false} RunKeepsInv<S, Q, R>(run: Semantics<S, Q, R>, init: S, y: System<S, Q, R>, ss: seq<Step<Q>>)
    requires IsRun(run, y, ss) && Inv(run, init, y)
    ensures Inv(run, init, After(run, y, ss))
    decreases |ss|
  {
    if ss != [] {
      KeepsInOrder(run, y, ss[0]);
      KeepsTime(run, y, ss[0]);
      KeepsStore(run, init, y, ss[0]);
      KeepsReplies(run, init, y, ss[0]);
      RunKeepsInv(run, init, Next(run, y, ss[0]), ss[1..]);
    }
  }

  // --- Linearizability ---

  // For every interleaving: the store is the atomic account of the served calls in ticket order,
  // and each returned call got the answer of its own request at its own place in that order.
  lemma Linearizable<S, Q, R>(run: Semantics<S, Q, R>, init: S, ss: seq<Step<Q>>, i: nat)
    requires IsRun(run, Start(init), ss)
    ensures var y := After(run, Start(init), ss);
            && y.store == Fold(run, init, y.served)
            && (i in y.calls && y.calls[i].phase.Returned? ==>
                  var k := y.calls[i].Ticket();
                  && k < |y.served|
                  && y.served[k].call == i && y.served[k].request == y.calls[i].request
                  && y.calls[i].phase.reply == ReplyAt(run, init, y.served, k))
  {
    RunKeepsInv(run, init, Start(init), ss);
  }

  // Real time: a call that had returned before another was made comes first in the order.
  lemma OrderRespectsTime<S, Q, R>(run: Semantics<S, Q, R>, init: S, ss: seq<Step<Q>>, first: nat, second: nat)
    requires IsRun(run, Start(init), ss)
    requires var y := After(run, Start(init), ss);
             second in y.calls && first in y.calls[second].earlier && y.calls[second].Sent()
    ensures var y := After(run, Start(init), ss);
            first in y.calls && y.calls[first].Sent() && y.calls[first].Ticket() < y.calls[second].Ticket()
  {
    RunKeepsInv(run, init, Start(init), ss);
  }

  lemma {:induction false} RunSplits<S, Q, R>(run: Semantics<S, Q, R>, y: System<S, Q, R>, ss: seq<Step<Q>>, n: nat)
    requires IsRun(run, y, ss) && n <= |ss|
    ensures IsRun(run, y, ss[..n]) && IsRun(run, After(run, y, ss[..n]), ss[n..])
    ensures After(run, After(run, y, ss[..n]), ss[n..]) == After(run, y, ss)
    decreases n
  {
    if n == 0 {
      assert ss[..0] == [] && ss[0..] == ss;
    } else {
      RunSplits(run, Next(run, y, ss[0]), ss[1..], n - 1);
      assert ss[..n][0] == ss[0] && ss[..n][1..] == ss[1..][..n - 1] && ss[n..] == ss[1..][n - 1..];
    }
  }

  lemma {:induction false} ServedOnlyGrows<S, Q, R>(run: Semantics<S, Q, R>, y: System<S, Q, R>, ss: seq<Step<Q>>)
    requires IsRun(run, y, ss)
    ensures y.served <= After(run, y, ss).served
    decreases |ss|
  {
    if ss != [] {
      ServedOnlyGrows(run, Next(run, y, ss[0]), ss[1..]);
    }
  }

  // At any moment of a run the store is the account of what will be seen, in the end, to have been
  // served by then.
  lemma StoreAtMoment<S, Q, R>(run: Semantics<S, Q, R>, init: S, ss: seq<Step<Q>>, n: nat)
    requires IsRun(run, Start(init), ss) && n <= |ss|
    ensures IsRun(run, Start(init), ss[..n])
    ensures var z, y := After(run, Start(init), ss[..n]), After(run, Start(init), ss);
            |z.served| <= |y.served| && z.store == Fold(run, init, y.served[..|z.served|])
  {
    RunSplits(run, Start(init), ss, n);
    var z := After(run, Start(init), ss[..n]);
    ServedOnlyGrows(run, z, ss[n..]);
    RunKeepsInv(run, init, Start(init), ss[..n]);
    assert z.served == After(run, Start(init), ss).served[..|z.served|];
  }

  // A call that comes back: whenever one looks after the calls before it and before it is decided,
  // and again when it is decided and the next is not, the store is the same if the call failed, and
  // is changed by its request alone, with its result, if it succeeded.
  lemma FailureChangesNothing<S, Q, R>(
    run: Semantics<S, Q, R>, init: S, ss: seq<Step<Q>>, i: nat, before: nat, after: nat)
    requires IsRun(run, Start(init), ss) && before <= |ss| && after <= |ss|
    requires IsRun(run, Start(init), ss[..before]) && IsRun(run, Start(init), ss[..after])
    requires var y := After(run, Start(init), ss);
             && i in y.calls && y.calls[i].phase.Returned?
             && |After(run, Start(init), ss[..before]).served| == y.calls[i].Ticket()
             && |After(run, Start(init), ss[..after]).served| == y.calls[i].Ticket() + 1
    ensures var call := After(run, Start(init), ss).calls[i];
            var was, now := After(run, Start(init), ss[..before]).store, After(run, Start(init), ss[..after]).store;
            if call.phase.reply.Success? then (now, call.phase.reply.result) == run(was, call.request)
            else now == was
  {
    StoreAtMoment(run, init, ss, before);
    StoreAtMoment(run, init, ss, after);
    Linearizable(run, init, ss, i);
    var y := After(run, Start(init), ss);
    var k := y.calls[i].Ticket();
    assert y.served[..k + 1] == y.served[..k] + [y.served[k]];
    FoldAppend(run, init, y.served[..k], y.served[k]);
  }

  // --- Every call gets its answer ---

  ghost predicate OneToATicket<Q, R>(calls: map<nat, Call<Q, R>>) {
    forall i, j :: i in calls && j in calls && calls[i].Sent() && calls[j].Sent() && i != j ==>
      calls[i].Ticket() != calls[j].Ticket()
  }

  // Every decided call but the one being replied to has its reply.
  ghost predicate DecidedHaveReplies<S, Q, R>(y: System<S, Q, R>) {
    forall i :: i in y.calls && y.calls[i].phase.Waiting? && y.calls[i].Ticket() < |y.served| ==>
      i in y.replies || (y.writer.Replying? && y.writer.req.call == i)
  }

  ghost predicate Answered<S, Q, R>(y: System<S, Q, R>) {
    |y.channel| <= CHANNEL_CAPACITY && OneToATicket(y.calls) && DecidedHaveReplies(y)
  }

  lemma DecidingKeepsReplies<S, Q, R>(run: Semantics<S, Q, R>, y: System<S, Q, R>, s: Step<Q>)
    requires Enabled(y, s) && !TouchesCalls(s) && InOrder(y) && OneToATicket(y.calls) && DecidedHaveReplies(y)
    ensures DecidedHaveReplies(Next(run, y, s))
  {
    Division(run, y, s);
    var z := Next(run, y, s);
    forall i | i in z.calls && z.calls[i].phase.Waiting? && z.calls[i].Ticket() < |z.served|
      ensures i in z.replies || (z.writer.Replying? && z.writer.req.call == i)
    {
      if z.calls[i].Ticket() == |y.served| {
        assert y.writer.req in Undecided(y.writer);
        assert HoldsTicket(y.calls, y.writer.req.call, y.writer.req.request, |y.served|);
      }
    }
  }

  lemma CallersKeepDecided<S, Q, R>(run: Semantics<S, Q, R>, y: System<S, Q, R>, s: Step<Q>)
    requires Enabled(y, s) && TouchesCalls(s) && InOrder(y) && DecidedHaveReplies(y)
    ensures DecidedHaveReplies(Next(run, y, s))
  {
    Division(run, y, s);
    var z := Next(run, y, s);
    assert z.calls == y.calls[s.call := z.calls[s.call]];
  }

  lemma CallersKeepTickets<S, Q, R>(run: Semantics<S, Q, R>, y: System<S, Q, R>, s: Step<Q>)
    requires Enabled(y, s) && TouchesCalls(s) && TimeRespected(y.calls, y.sent) && OneToATicket(y.calls)
    ensures OneToATicket(Next(run, y, s).calls)
  {
    var z := Next(run, y, s);
    assert z.calls == y.calls[s.call := z.calls[s.call]];
  }

  lemma KeepsAnswered<S, Q, R>(run: Semantics<S, Q, R>, init: S, y: System<S, Q, R>, s: Step<Q>)
    requires Enabled(y, s) && Inv(run, init, y) && Answered(y)
    ensures Answered(Next(run, y, s))
  {
    if TouchesCalls(s) {
      CallersKeepDecided(run, y, s);
      CallersKeepTickets(run, y, s);
    } else {
      Division(run, y, s);
      DecidingKeepsReplies(run, y, s);
    }
  }

  lemma StepKeepsAll<S, Q, R>(run: Semantics<S, Q, R>, init: S, y: System<S, Q, R>, s: Step<Q>)
    requires Enabled(y, s) && Inv(run, init, y) && Answered(y)
    ensures Inv(run, init, Next(run, y, s)) && Answered(Next(run, y, s))
  {
    KeepsInOrder(run, y, s);
    KeepsTime(run, y, s);
    KeepsStore(run, init, y, s);
    KeepsReplies(run, init, y, s);
    KeepsAnswered(run, init, y, s);
  }

  lemma {:induction false} RunKeepsAll<S, Q, R>(run: Semantics<S, Q, R>, init: S, y: System<S, Q, R>, ss: seq<Step<Q>>)
    requires IsRun(run, y, ss) && Inv(run, init, y) && Answered(y)
    ensures Inv(run, init, After(run, y, ss)) && Answered(After(run, y, ss))
    decreases |ss|
  {
    if ss != [] {
      StepKeepsAll(run, init, y, ss[0]);
      RunKeepsAll(run, init, Next(run, y, ss[0]), ss[1..]);
    }
  }

  lemma StartIsAnswered<S, Q, R>(run: Semantics<S, Q, R>, init: S)
    ensures Inv(run, init, Start(init)) && Answered<S, Q, R>(Start(init))
  {
  }

  lemma RunReaches<S, Q, R>(run: Semantics<S, Q, R>, init: S, ss: seq<Step<Q>>)
    requires IsRun(run, Start(init), ss)
    ensures Inv(run, init, After(run, Start(init), ss)) && Answered(After(run, Start(init), ss))
  {
    StartIsAnswered<S, Q, R>(run, init);
    RunKeepsAll(run, init, Start(init), ss);
  }

  lemma DecidedHere<S, Q, R>(y: System<S, Q, R>, i: nat)
    requires DecidedHaveReplies(y) && i in y.calls && y.calls[i].Sent() && y.calls[i].Ticket() < |y.served|
    requires !(y.writer.Replying? && y.writer.req.call == i)
    ensures y.calls[i].phase.Returned? || Enabled(y, Collect(i))
  {
  }

  // In every reachable system a decided call has come back or can collect its answer, unless the
  // writer is just handing it over.
  lemma DecidedCanCollect<S, Q, R>(run: Semantics<S, Q, R>, init: S, ss: seq<Step<Q>>, i: nat)
    requires IsRun(run, Start(init), ss)
    requires var y := After(run, Start(init), ss);
             && i in y.calls && y.calls[i].Sent() && y.calls[i].Ticket() < |y.served|
             && !(y.writer.Replying? && y.writer.req.call == i)
    ensures var y := After(run, Start(init), ss); y.calls[i].phase.Returned? || Enabled(y, Collect(i))
  {
    RunReaches(run, init, ss);
    DecidedHere(After(run, Start(init), ss), i);
  }

  // The writer steps a waiting call is away from its reply, at most.
  function Distance<S, Q, R>(y: System<S, Q, R>, ticket: nat): int {
    5 * (ticket + 1 - |y.served|)
    + (match y.writer case Replying(_, _) => 5 case Receiving => 4 case Got(_) => 3 case InTx(_) => 2 case BodyRan(_, _, _) => 1)
  }

  predicate Unanswered<S, Q, R>(y: System<S, Q, R>, i: nat) {
    i in y.calls && y.calls[i].phase.Waiting? && i !in y.replies
  }

  // What the writer does next; the database may fail where there is a choice.
  function Move<S, Q, R>(w: Writer<S, Q, R>, ok: bool): Step<Q> {
    match w
    case Receiving => Receive
    case Got(_) => Begin(ok)
    case InTx(_) => RunBody(ok)
    case BodyRan(_, _, _) => Commit(ok)
    case Replying(_, _) => Respond
  }

  // While a call waits the writer is never stuck.
  lemma WriterCanMove<S, Q, R>(run: Semantics<S, Q, R>, init: S, y: System<S, Q, R>, i: nat, ok: bool)
    requires Inv(run, init, y) && Answered(y) && Unanswered(y, i)
    ensures Enabled(y, Move(y.writer, ok)) && !TouchesCalls(Move<S, Q, R>(y.writer, ok))
  {
    assert y.writer.Receiving? ==> y.channel != [];
  }

  // The call has its reply: it has come back, or only has to collect it.
  predicate HasReply<S, Q, R>(y: System<S, Q, R>, i: nat) {
    i in y.calls && i in y.replies && (y.calls[i].phase.Returned? || Enabled(y, Collect(i)))
  }

  lemma RepliedToIsLast<S, Q, R>(run: Semantics<S, Q, R>, init: S, y: System<S, Q, R>)
    requires InOrder(y) && RepliesAreOwn(run, init, y) && y.writer.Replying?
    ensures var i := y.writer.req.call; i in y.calls && y.calls[i].Sent() && y.calls[i].Ticket() == |y.served| - 1
  {
    var k := |y.served| - 1;
    assert HoldsTicket(y.calls, y.served[k].call, y.served[k].request, k);
  }

  lemma NotThereYet<S, Q, R>(run: Semantics<S, Q, R>, init: S, y: System<S, Q, R>, i: nat)
    requires InOrder(y) && RepliesAreOwn(run, init, y) && DecidedHaveReplies(y) && Unanswered(y, i)
    ensures Distance(y, y.calls[i].Ticket()) > 0
  {
    if y.writer.Replying? {
      RepliedToIsLast(run, init, y);
    }
  }

  // Each of the writer's steps brings every unanswered call nearer to its reply, and no caller's
  // step moves it away.
  lemma StepBringsNearer<S, Q, R>(run: Semantics<S, Q, R>, y: System<S, Q, R>, s: Step<Q>, i: nat)
    requires Enabled(y, s) && Unanswered(y, i)
    ensures var z, k := Next(run, y, s), y.calls[i].Ticket();
            && (HasReply(z, i) || Unanswered(z, i))
            && i in z.calls && z.calls[i] == y.calls[i]
            && Distance(z, k) <= Distance(y, k) - (if TouchesCalls(s) then 0 else 1)
  {
    Division(run, y, s);
  }

  function WriterSteps<Q>(ss: seq<Step<Q>>): nat {
    if ss == [] then 0 else (if TouchesCalls(ss[0]) then 0 else 1) + WriterSteps(ss[1..])
  }

  lemma {:induction false} RepliesStay<S, Q, R>(run: Semantics<S, Q, R>, y: System<S, Q, R>, ss: seq<Step<Q>>, i: nat)
    requires IsRun(run, y, ss) && HasReply(y, i)
    ensures HasReply(After(run, y, ss), i)
    decreases |ss|
  {
    if ss != [] {
      RepliesStay(run, Next(run, y, ss[0]), ss[1..], i);
    }
  }

  lemma {:induction false} AnsweredWithin<S, Q, R>(
    run: Semantics<S, Q, R>, init: S, y: System<S, Q, R>, ss: seq<Step<Q>>, i: nat)
    requires Inv(run, init, y) && Answered(y) && IsRun(run, y, ss) && (HasReply(y, i) || Unanswered(y, i))
    requires Unanswered(y, i) ==> WriterSteps(ss) >= Distance(y, y.calls[i].Ticket())
    ensures HasReply(After(run, y, ss), i)
    decreases |ss|
  {
    if HasReply(y, i) {
      RepliesStay(run, y, ss, i);
    } else if ss == [] {
      NotThereYet(run, init, y, i);
    } else {
      NotThereYet(run, init, y, i);
      StepBringsNearer(run, y, ss[0], i);
      StepKeepsAll(run, init, y, ss[0]);
      AnsweredWithin(run, init, Next(run, y, ss[0]), ss[1..], i);
    }
  }

  lemma WaitingIsNear<S, Q, R>(y: System<S, Q, R>, i: nat)
    requires i in y.calls && y.calls[i].phase.Waiting?
    ensures HasReply(y, i) || Unanswered(y, i)
    ensures Distance(y, y.calls[i].Ticket()) <= 5 * (y.calls[i].Ticket() + 1 - |y.served|) + 5
  {
  }

  // Whatever the callers do and whatever fails in the database: once the writer has taken five
  // steps for each call before this one and for this one, and five more, it has its reply.
  lemma RepliesComeInTime<S, Q, R>(run: Semantics<S, Q, R>, init: S, ss: seq<Step<Q>>, n: nat, i: nat)
    requires IsRun(run, Start(init), ss) && n <= |ss| && IsRun(run, Start(init), ss[..n])
    requires var y := After(run, Start(init), ss[..n]);
             && i in y.calls && y.calls[i].phase.Waiting?
             && WriterSteps(ss[n..]) >= 5 * (y.calls[i].Ticket() + 1 - |y.served|) + 5
    ensures HasReply(After(run, Start(init), ss), i)
  {
    var y := After(run, Start(init), ss[..n]);
    RunSplits(run, Start(init), ss, n);
    WaitingIsNear(y, i);
    RunReaches(run, init, ss[..n]);
    AnsweredWithin(run, init, y, ss[n..], i);
  }

  lemma RunCons<S, Q, R>(run: Semantics<S, Q, R>, y: System<S, Q, R>, s: Step<Q>, rest: seq<Step<Q>>)
    requires Enabled(y, s) && IsRun(run, Next(run, y, s), rest)
    ensures IsRun(run, y, [s] + rest) && After(run, y, [s] + rest) == After(run, Next(run, y, s), rest)
  {
    assert ([s] + rest)[0] == s && ([s] + rest)[1..] == rest;
  }

  // Steps of the writer, and what the call itself does next.
  ghost predicate OnlyFor<Q>(ss: seq<Step<Q>>, i: nat) {
    forall s :: s in ss ==> !TouchesCalls(s) || s == Send(i) || s == Collect(i)
  }

  lemma {:induction false} WaitingReturns<S, Q, R>(run: Semantics<S, Q, R>, init: S, y: System<S, Q, R>, i: nat)
    returns (more: seq<Step<Q>>)
    requires Inv(run, init, y) && Answered(y) && i in y.calls && y.calls[i].phase.Waiting?
    ensures IsRun(run, y, more) && OnlyFor(more, i) && AllWork(more)
    ensures var z := After(run, y, more); i in z.calls && z.calls[i].phase.Returned?
    decreases if i in y.replies then 0 else Distance(y, y.calls[i].Ticket())
  {
    if i in y.replies {
      RunCons(run, y, Collect(i), []);
      more := [Collect(i)] + [];
    } else {
      var s := Move(y.writer, true);
      WriterCanMove(run, init, y, i, true);
      StepKeepsAll(run, init, y, s);
      NotThereYet(run, init, y, i);
      StepBringsNearer(run, y, s, i);
      var rest := WaitingReturns(run, init, Next(run, y, s), i);
      RunCons(run, y, s, rest);
      more := [s] + rest;
    }
  }

  // The writer's steps until it receives again.
  function UntilReceive<S, Q, R>(w: Writer<S, Q, R>): nat {
    match w case Got(_) => 4 case InTx(_) => 3 case BodyRan(_, _, _) => 2 case Replying(_, _) => 1 case Receiving => 0
  }

  lemma MakesRoom<S, Q, R>(run: Semantics<S, Q, R>, y: System<S, Q, R>)
    requires y.channel != []
    ensures var s := Move(y.writer, true);
            && Enabled(y, s) && !TouchesCalls(s)
            && var z := Next(run, y, s);
               && z.calls == y.calls
               && |z.channel| <= |y.channel|
               && (|z.channel| == |y.channel| ==> UntilReceive(z.writer) < UntilReceive(y.writer))
  {
  }

  lemma {:induction false} SendingReturns<S, Q, R>(run: Semantics<S, Q, R>, init: S, y: System<S, Q, R>, i: nat)
    returns (more: seq<Step<Q>>)
    requires Inv(run, init, y) && Answered(y) && i in y.calls && y.calls[i].phase.Sending?
    ensures IsRun(run, y, more) && OnlyFor(more, i) && AllWork(more)
    ensures var z := After(run, y, more); i in z.calls && z.calls[i].phase.Returned?
    decreases |y.channel|, UntilReceive(y.writer)
  {
    var s, rest;
    if |y.channel| < CHANNEL_CAPACITY {
      s := Send(i);
      StepKeepsAll(run, init, y, s);
      rest := WaitingReturns(run, init, Next(run, y, s), i);
    } else {
      s := Move(y.writer, true);
      MakesRoom(run, y);
      StepKeepsAll(run, init, y, s);
      rest := SendingReturns(run, init, Next(run, y, s), i);
    }
    RunCons(run, y, s, rest);
    more := [s] + rest;
  }

  lemma {:induction false} RunsChain<S, Q, R>(run: Semantics<S, Q, R>, y: System<S, Q, R>, a: seq<Step<Q>>, b: seq<Step<Q>>)
    requires IsRun(run, y, a) && IsRun(run, After(run, y, a), b)
    ensures IsRun(run, y, a + b) && After(run, y, a + b) == After(run, After(run, y, a), b)
    decreases |a|
  {
    if a == [] {
      assert a + b == b;
    } else {
      assert (a + b)[0] == a[0] && (a + b)[1..] == a[1..] + b;
      RunsChain(run, Next(run, y, a[0]), a[1..], b);
    }
  }

  // No begin, body or commit fails.
  ghost predicate AllWork<Q>(ss: seq<Step<Q>>) {
    forall s :: s in ss ==> (s.Begin? || s.RunBody? || s.Commit? ==> s.ok)
  }

  lemma {:induction false} WorkingRunsCommit<S, Q, R>(run: Semantics<S, Q, R>, y: System<S, Q, R>, ss: seq<Step<Q>>)
    requires IsRun(run, y, ss) && AllWork(ss)
    ensures var z := After(run, y, ss);
            |y.served| <= |z.served| && forall k :: |y.served| <= k < |z.served| ==> z.served[k].verdict.Committed?
    decreases |ss|
  {
    if ss != [] {
      assert ss[0] in ss;
      ServedOnlyGrows(run, Next(run, y, ss[0]), ss[1..]);
      WorkingRunsCommit(run, Next(run, y, ss[0]), ss[1..]);
    }
  }

  // What a database call that fails, and a commit that works, do to the store and the reply.
  lemma FailuresAreReported<S, Q, R>(run: Semantics<S, Q, R>, init: S, ss: seq<Step<Q>>, s: Step<Q>)
    requires IsRun(run, Start(init), ss) && Enabled(After(run, Start(init), ss), s)
    ensures var y := After(run, Start(init), ss);
            var z := Next(run, y, s);
            && ((s.Begin? || s.RunBody? || s.Commit?) && !s.ok ==>
                  z.store == y.store && z.writer.Replying? && !z.writer.reply.Success?)
            && (s.Commit? && s.ok ==>
                  && z.writer.Replying? && z.writer.reply.Success?
                  && (z.store, z.writer.reply.result) == run(y.store, y.writer.req.request))
            && (!s.Commit? ==> z.store == y.store)
  {
    RunKeepsInv(run, init, Start(init), ss);
  }

  // From wherever a run has got to, a call that was made comes back after steps of the writer and
  // of its own, with the answer of its own request at its place; and it succeeds if it was not
  // decided before.
  lemma EveryCallReturns<S, Q, R>(run: Semantics<S, Q, R>, init: S, ss: seq<Step<Q>>, i: nat)
    returns (more: seq<Step<Q>>)
    requires IsRun(run, Start(init), ss) && i in After(run, Start(init), ss).calls
    ensures IsRun(run, Start(init), ss + more) && OnlyFor(more, i)
    ensures var was, y := After(run, Start(init), ss), After(run, Start(init), ss + more);
            && i in y.calls && y.calls[i].phase.Returned?
            && (y.calls[i].Ticket() >= |was.served| ==> y.calls[i].phase.reply.Success?)
    ensures var y := After(run, Start(init), ss + more);
            && i in y.calls && y.calls[i].phase.Returned? && y.calls[i].Ticket() < |y.served|
            && y.served[y.calls[i].Ticket()].call == i
            && y.calls[i].phase.reply == ReplyAt(run, init, y.served, y.calls[i].Ticket())
  {
    var y := After(run, Start(init), ss);
    RunReaches(run, init, ss);
    if y.calls[i].phase.Sending? {
      more := SendingReturns(run, init, y, i);
    } else if y.calls[i].phase.Waiting? {
      more := WaitingReturns(run, init, y, i);
    } else {
      more := [];
    }
    RunsChain(run, Start(init), ss, more);
    WorkingRunsCommit(run, y, more);
    Linearizable(run, init, ss + more, i);
  }

  // --- Only what is asked is served ---

  ghost predicate CallsAre<Q, R>(calls: map<nat, Call<Q, R>>, ok: Q -> bool) {
    forall i :: i in calls ==> ok(calls[i].request)
  }

  ghost predicate OnlyAsks<Q(!new)>(ss: seq<Step<Q>>, ok: Q -> bool) {
    forall k :: 0 <= k < |ss| && ss[k].Invoke? ==> ok(ss[k].request)
  }

  lemma StepKeepsCalls<S, Q, R>(run: Semantics<S, Q, R>, y: System<S, Q, R>, s: Step<Q>, ok: Q -> bool)
    requires Enabled(y, s) && CallsAre(y.calls, ok) && (s.Invoke? ==> ok(s.request))
    ensures CallsAre(Next(run, y, s).calls, ok)
  {
    Division(run, y, s);
  }

  lemma {:induction false} RunKeepsCalls<S, Q(!new), R>(
    run: Semantics<S, Q, R>, y: System<S, Q, R>, ss: seq<Step<Q>>, ok: Q -> bool)
    requires IsRun(run, y, ss) && CallsAre(y.calls, ok) && OnlyAsks(ss, ok)
    ensures CallsAre(After(run, y, ss).calls, ok)
    decreases |ss|
  {
    if ss != [] {
      StepKeepsCalls(run, y, ss[0], ok);
      assert forall k :: 0 <= k < |ss[1..]| ==> ss[1..][k] == ss[k + 1];
      RunKeepsCalls(run, Next(run, y, ss[0]), ss[1..], ok);
    }
  }

  lemma ServedWereAsked<S, Q(!new), R>(
    run: Semantics<S, Q, R>, init: S, ss: seq<Step<Q>>, ok: Q -> bool, k: nat)
    requires IsRun(run, Start(init), ss) && OnlyAsks(ss, ok)
    requires k < |After(run, Start(init), ss).served|
    ensures ok(After(run, Start(init), ss).served[k].request)
  {
    RunKeepsCalls(run, Start(init), ss, ok);
    RunKeepsInv(run, init, Start(init), ss);
    var y := After(run, Start(init), ss);
    assert HoldsTicket(y.calls, y.served[k].call, y.served[k].request, k);
  }

  // --- The writer's loop body, in place ---

  // Which of the three database calls fails for one request, if any.
  datatype Fault = NoFault | AtBegin | InBody | AtCommit

  function VerdictOf(f: Fault): Verdict {
    match f
    case NoFault => Committed
    case AtBegin => NoBegin
    case InBody => RolledBack
    case AtCommit => NoCommit
  }

  class WriterLoop<S, Q, R> {
    var store: S

    constructor (init: S)
      ensures store == init
    {
      store := init;
    }

    // One after another, what the main loop does with the requests it receives.
    method Serve(run: Semantics<S, Q, R>, requests: seq<Req<Q>>, faults: seq<Fault>)
      returns (replies: seq<Reply<R>>, ghost served: seq<Served<Q>>)
      requires |faults| == |requests|
      modifies this
      ensures |served| == |requests| == |replies|
      ensures forall k :: 0 <= k < |requests| ==>
        served[k] == Served(requests[k].call, requests[k].request, VerdictOf(faults[k]))
      ensures store == Fold(run, old(store), served)
      ensures forall k :: 0 <= k < |replies| ==> replies[k] == ReplyAt(run, old(store), served, k)
      ensures forall k :: 0 <= k < |replies| ==> (replies[k].Success? <==> faults[k].NoFault?)
    {
      replies, served := [], [];
      for n := 0 to |requests|
        invariant |served| == |replies| == n
        invariant forall k :: 0 <= k < n ==>
          served[k] == Served(requests[k].call, requests[k].request, VerdictOf(faults[k]))
        invariant store == Fold(run, old(store), served)
        invariant forall k :: 0 <= k < n ==> replies[k] == ReplyAt(run, old(store), served, k)
      {
        var req := requests[n];
        ghost var e := Served(req.call, req.request, VerdictOf(faults[n]));
        FoldAppend(run, old(store), served, e);
        var reply := BeginFailed;
        if faults[n] != AtBegin {
          if faults[n] == InBody {
            reply := BodyFailed;
          } else {
            var (working, result) := run(store, req.request);
            if faults[n] == AtCommit {
              reply := CommitFailed;
            } else {
              store := working;
              reply := Success(result);
            }
          }
        }
        replies := replies + [reply];
        served := served + [e];
      }
    }
  }
}
