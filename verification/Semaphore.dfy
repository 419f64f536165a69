// The channel semaphore, with its channel step and its counter step apart.
module Semaphore {
  type Thread = nat

  // Where a thread is between its calls: outside, between send and +1, holding, between receive
  // and -1.
  datatype Place = Outside | Entering | Holding | Leaving

  // `slots` is the occupancy of the buffered channel, `acquired` the atomic counter.
  datatype Sem = Sem(limit: nat, slots: nat, acquired: int, places: map<Thread, Place>)

  datatype Step =
    | Send(t: Thread)            // a slot is taken by Acquire or TryAcquire
    | AddOne(t: Thread)
    | Receive(t: Thread)         // Release by a thread that holds a slot
    | SubOne(t: Thread)
    | ReleaseUnheld(t: Thread)   // Release by a thread that holds nothing

  function EffectiveLimit(limit: int): (l: nat)
    ensures l >= 1 && l >= limit && (l == 1 || l == limit)
  {
    if limit <= 0 then 1 else limit
  }

  function NewSemaphore(limit: int): Sem {
    Sem(EffectiveLimit(limit), 0, 0, map[])
  }

  function PlaceOf(s: Sem, t: Thread): Place {
    if t in s.places then s.places[t] else Outside
  }

  predicate Enabled(s: Sem, step: Step) {
    match step
    case Send(t) => PlaceOf(s, t) == Outside && s.slots < s.limit
    case AddOne(t) => PlaceOf(s, t) == Entering
    case Receive(t) => PlaceOf(s, t) == Holding
    case SubOne(t) => PlaceOf(s, t) == Leaving
    case ReleaseUnheld(t) => PlaceOf(s, t) == Outside
  }

  // Release does nothing when the channel is empty.
  function Next(s: Sem, step: Step): Sem {
    match step
    case Send(t) => s.(slots := s.slots + 1, places := s.places[t := Entering])
    case AddOne(t) => s.(acquired := s.acquired + 1, places := s.places[t := Holding])
    case Receive(t) =>
      if s.slots > 0 then s.(slots := s.slots - 1, places := s.places[t := Leaving])
      else s.(places := s.places[t := Outside])
    case SubOne(t) => s.(acquired := s.acquired - 1, places := s.places[t := Outside])
    case ReleaseUnheld(t) =>
      if s.slots > 0 then s.(slots := s.slots - 1, places := s.places[t := Leaving]) else s
  }

  function At(s: Sem, p: Place): set<Thread> {
    set t | t in s.places && s.places[t] == p
  }

  // --- What every interleaving keeps ---

  ghost predicate Inv(s: Sem) {
    && s.slots == |At(s, Entering)| + |At(s, Holding)|
    && s.slots <= s.limit
    && s.acquired == |At(s, Holding)| + |At(s, Leaving)|
  }

  lemma Moves(s: Sem, t: Thread, to: Place, p: Place)
    ensures |At(s.(places := s.places[t := to]), p)|
            == |At(s, p)| - (if t in At(s, p) && to != p then 1 else 0) + (if t !in At(s, p) && to == p then 1 else 0)
  {
    var a, b := At(s, p), At(s.(places := s.places[t := to]), p);
    if to == p {
      assert b == a + {t};
    } else {
      assert b == a - {t};
    }
  }

  lemma MovesAll(s: Sem, t: Thread, to: Place)
    requires PlaceOf(s, t) != to
    ensures var n := s.(places := s.places[t := to]);
            && |At(n, Entering)| == |At(s, Entering)| + Delta(PlaceOf(s, t), to, Entering)
            && |At(n, Holding)| == |At(s, Holding)| + Delta(PlaceOf(s, t), to, Holding)
            && |At(n, Leaving)| == |At(s, Leaving)| + Delta(PlaceOf(s, t), to, Leaving)
  {
    Moves(s, t, to, Entering);
    Moves(s, t, to, Holding);
    Moves(s, t, to, Leaving);
  }

  function Delta(from: Place, to: Place, p: Place): int {
    (if to == p then 1 else 0) - (if from == p then 1 else 0)
  }

  lemma HolderHasSlot(s: Sem, t: Thread)
    requires Inv(s) && PlaceOf(s, t) == Holding
    ensures s.slots > 0
  {
    assert t in At(s, Holding);
  }

  function Target(step: Step): Place {
    match step
    case Send(_) => Entering
    case AddOne(_) => Holding
    case Receive(_) => Leaving
    case SubOne(_) => Outside
    case ReleaseUnheld(_) => Leaving
  }

  // Clients that release only what they hold keep the books straight; a release of nothing does
  // so exactly when the channel is empty.
  lemma StepKeepsInvIff(s: Sem, step: Step)
    requires Inv(s) && Enabled(s, step)
    ensures Inv(Next(s, step)) <==> (step.ReleaseUnheld? ==> s.slots == 0)
  {
    MovesAll(s, step.t, Target(step));
    if step.Receive? {
      HolderHasSlot(s, step.t);
    }
    var n := s.(places := s.places[step.t := Target(step)]);
    assert At(Next(s, step), Entering) == At(n, Entering) || step.ReleaseUnheld?;
    assert At(Next(s, step), Holding) == At(n, Holding) || step.ReleaseUnheld?;
    assert At(Next(s, step), Leaving) == At(n, Leaving) || step.ReleaseUnheld?;
    if step.ReleaseUnheld? && s.slots > 0 {
      assert At(Next(s, step), Entering) == At(n, Entering) && At(Next(s, step), Holding) == At(n, Holding);
    }
  }

  predicate Disciplined(s: Sem, step: Step) {
    Enabled(s, step) && !step.ReleaseUnheld?
  }

  predicate DisciplinedRun(s: Sem, steps: seq<Step>)
    decreases |steps|
  {
    steps == [] || (Disciplined(s, steps[0]) && DisciplinedRun(Next(s, steps[0]), steps[1..]))
  }

  function After(s: Sem, steps: seq<Step>): Sem
    decreases |steps|
  {
    if steps == [] then s else After(Next(s, steps[0]), steps[1..])
  }

  lemma {:induction false} RunKeepsInv(s: Sem, steps: seq<Step>)
    requires Inv(s) && DisciplinedRun(s, steps)
    ensures Inv(After(s, steps)) && After(s, steps).limit == s.limit
    decreases |steps|
  {
    if steps != [] {
      StepKeepsInvIff(s, steps[0]);
      RunKeepsInv(Next(s, steps[0]), steps[1..]);
    }
  }

  // For any number of threads and any interleaving: at most max(1, limit) holders, the
  // over-release branch is never taken, and InUse is exact when nobody is mid-operation.
  lemma SemaphoreIsSound(limit: int, steps: seq<Step>)
    requires DisciplinedRun(NewSemaphore(limit), steps)
    ensures var s := After(NewSemaphore(limit), steps);
            && |At(s, Holding)| <= (if limit < 1 then 1 else limit)
            && s.slots == |At(s, Entering)| + |At(s, Holding)|
            && s.acquired == |At(s, Holding)| + |At(s, Leaving)|
            && (At(s, Entering) == {} && At(s, Leaving) == {} ==> s.acquired == s.slots == |At(s, Holding)|)
            && (forall t :: PlaceOf(s, t) == Holding ==> s.slots > 0)
  {
    var s0 := NewSemaphore(limit);
    assert At(s0, Entering) == {} && At(s0, Holding) == {} && At(s0, Leaving) == {};
    RunKeepsInv(s0, steps);
    var s := After(s0, steps);
    forall t | PlaceOf(s, t) == Holding
      ensures s.slots > 0
    {
      HolderHasSlot(s, t);
    }
  }

  // Without that discipline the bound fails: one stray release and two threads hold one permit.
  lemma StrayReleaseBreaksTheBound()
    ensures var s := After(NewSemaphore(1), [Send(0), AddOne(0), ReleaseUnheld(1), Send(2), AddOne(2)]);
            At(s, Holding) == {0, 2}
  {
    var s0 := NewSemaphore(1);
    var s1 := Next(s0, Send(0));
    var s2 := Next(s1, AddOne(0));
    var s3 := Next(s2, ReleaseUnheld(1));
    var s4 := Next(s3, Send(2));
    var s5 := Next(s4, AddOne(2));
    assert [AddOne(2)][1..] == [] && After(s4, [AddOne(2)]) == s5;
    assert [Send(2), AddOne(2)][1..] == [AddOne(2)];
    assert After(s3, [Send(2), AddOne(2)]) == s5;
    assert [ReleaseUnheld(1), Send(2), AddOne(2)][1..] == [Send(2), AddOne(2)];
    assert After(s2, [ReleaseUnheld(1), Send(2), AddOne(2)]) == s5;
    assert [AddOne(0), ReleaseUnheld(1), Send(2), AddOne(2)][1..] == [ReleaseUnheld(1), Send(2), AddOne(2)];
    assert After(s1, [AddOne(0), ReleaseUnheld(1), Send(2), AddOne(2)]) == s5;
    assert [Send(0), AddOne(0), ReleaseUnheld(1), Send(2), AddOne(2)][1..]
        == [AddOne(0), ReleaseUnheld(1), Send(2), AddOne(2)];
    assert s5.places == map[0 := Holding, 1 := Leaving, 2 := Holding];
  }

  // --- The semaphore object ---

  // Every call is the steps of its thread in the system above; `sem` follows along.  What other
  // threads do between the two steps of a call is the system's business, not the object's.
  class ChannelSemaphore {
    var slots: nat
    var acquired: int
    const limit: nat
    ghost var sem: Sem

    ghost predicate Valid()
      reads this
    {
      limit >= 1 && slots <= limit && sem.limit == limit && sem.slots == slots && sem.acquired == acquired
    }

    constructor (limit: int)
      ensures Valid() && sem == NewSemaphore(limit)
    {
      this.limit := EffectiveLimit(limit);
      slots, acquired := 0, 0;
      sem := NewSemaphore(limit);
    }

    // A call that returns found a free slot or a cancelled context; with both, either may win.
    method Acquire(cancelled: bool, ghost t: Thread) returns (ok: bool)
      requires Valid() && PlaceOf(sem, t) == Outside && (slots < limit || cancelled)
      modifies this
      ensures Valid() && (!cancelled ==> ok)
      ensures ok ==> DisciplinedRun(old(sem), [Send(t), AddOne(t)]) && sem == After(old(sem), [Send(t), AddOne(t)])
      ensures !ok ==> sem == old(sem)
      ensures old(sem).slots == limit ==> !ok
    {
      var sendFirst: bool := *;
      ok := slots < limit && (!cancelled || sendFirst);
      if ok {
        ghost var mid := Next(sem, Send(t));
        TwoSteps(sem, Send(t), AddOne(t));
        slots := slots + 1;
        acquired := acquired + 1;
        sem := Next(mid, AddOne(t));
      }
    }

    method TryAcquire(ghost t: Thread) returns (ok: bool)
      requires Valid() && PlaceOf(sem, t) == Outside
      modifies this
      ensures Valid() && ok == (old(sem).slots < limit)
      ensures ok ==> DisciplinedRun(old(sem), [Send(t), AddOne(t)]) && sem == After(old(sem), [Send(t), AddOne(t)])
      ensures !ok ==> sem == old(sem)
    {
      ok := slots < limit;
      if ok {
        ghost var mid := Next(sem, Send(t));
        TwoSteps(sem, Send(t), AddOne(t));
        slots := slots + 1;
        acquired := acquired + 1;
        sem := Next(mid, AddOne(t));
      }
    }

    // By a holder this is Receive and SubOne; by anyone else it is a stray release.  Either does
    // nothing to the books when the channel is empty, which no holder finds while they are kept.
    method Release(ghost t: Thread)
      requires Valid() && (PlaceOf(sem, t) == Holding || PlaceOf(sem, t) == Outside)
      modifies this
      ensures Valid()
      ensures var first := if PlaceOf(old(sem), t) == Holding then Receive(t) else ReleaseUnheld(t);
              sem == if old(sem).slots > 0 then After(old(sem), [first, SubOne(t)]) else Next(old(sem), first)
      ensures PlaceOf(old(sem), t) == Holding && Inv(old(sem)) ==>
        old(sem).slots > 0 && DisciplinedRun(old(sem), [Receive(t), SubOne(t)])
    {
      ghost var first := if PlaceOf(sem, t) == Holding then Receive(t) else ReleaseUnheld(t);
      if PlaceOf(sem, t) == Holding && Inv(sem) {
        HolderHasSlot(sem, t);
      }
      TwoSteps(sem, first, SubOne(t));
      sem := Next(sem, first);
      if slots > 0 {
        slots := slots - 1;
        acquired := acquired - 1;
        sem := Next(sem, SubOne(t));
      }
    }

    function Available(): int
      reads this
    {
      limit - acquired
    }

    function InUse(): int
      reads this
    {
      acquired
    }
  }

  lemma TwoSteps(s: Sem, a: Step, b: Step)
    ensures After(s, [a, b]) == Next(Next(s, a), b)
    ensures DisciplinedRun(s, [a, b]) <==> Disciplined(s, a) && Disciplined(Next(s, a), b)
  {
    var last := Next(Next(s, a), b);
    assert [b][1..] == [] && [a, b][1..] == [b];
    assert After(last, []) == last && DisciplinedRun(last, []);
    assert After(Next(s, a), [b]) == last && (DisciplinedRun(Next(s, a), [b]) <==> Disciplined(Next(s, a), b));
  }
}
