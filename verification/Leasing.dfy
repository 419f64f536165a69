// Which rows a lease may take: the due pending rows in priority order, ties left open.
module Leasing {
  import opened Sequences
  import opened QueueTable

  predicate Due(r: Row, now: int) {
    r.state.Pending? && r.scheduledAt <= now
  }

  function Eligible(rows: map<JobId, Row>, now: int): set<JobId> {
    set id | id in rows && Due(rows[id], now)
  }

  // ORDER BY priority DESC, scheduled_at ASC, strictly.
  predicate Outranks(a: Row, b: Row) {
    a.priority > b.priority || (a.priority == b.priority && a.scheduledAt < b.scheduledAt)
  }

  function Key(r: Row): (int, int) {
    (r.priority, r.scheduledAt)
  }

  // LIMIT: a negative limit means no limit.
  function BatchSize(limit: int, available: nat): nat {
    if limit < 0 || available < limit then available else limit
  }

  function Elements(ids: seq<JobId>): set<JobId> {
    set x | x in ids
  }

  // ids are members of the pool, best first, and nothing left in the pool beats any of them.
  ghost predicate IsTop(rows: map<JobId, Row>, pool: set<JobId>, ids: seq<JobId>)
    requires pool <= rows.Keys
  {
    && Distinct(ids)
    && (forall i :: 0 <= i < |ids| ==> ids[i] in pool)
    && (forall i, j :: 0 <= i < j < |ids| ==> !Outranks(rows[ids[j]], rows[ids[i]]))
    && (forall e, i :: e in pool && e !in ids && 0 <= i < |ids| ==> !Outranks(rows[e], rows[ids[i]]))
  }

  // An answer LeaseBatch may give.
  ghost predicate IsBatch(rows: map<JobId, Row>, now: int, limit: int, ids: seq<JobId>) {
    && |ids| == BatchSize(limit, |Eligible(rows, now)|)
    && IsTop(rows, Eligible(rows, now), ids)
  }

  // --- Picking one at a time ---

  predicate IsBest(rows: map<JobId, Row>, pool: set<JobId>, id: JobId)
    requires pool <= rows.Keys
  {
    id in pool && forall e :: e in pool ==> !Outranks(rows[e], rows[id])
  }

  ghost predicate PickedInOrder(rows: map<JobId, Row>, pool: set<JobId>, ids: seq<JobId>)
    requires pool <= rows.Keys
    decreases |ids|
  {
    ids == [] || (IsBest(rows, pool, ids[0]) && PickedInOrder(rows, pool - {ids[0]}, ids[1..]))
  }

  lemma NoMembersMeansEmpty(pool: set<JobId>)
    ensures (forall x :: x !in pool) ==> pool == {}
  {
    if forall x :: x !in pool {
      assert pool == {};
    }
  }

  lemma {:induction false} BestExists(rows: map<JobId, Row>, pool: set<JobId>)
    requires pool <= rows.Keys
    requires pool != {}
    ensures exists id :: IsBest(rows, pool, id)
    decreases |pool|
  {
    NoMembersMeansEmpty(pool);
    var x :| x in pool;
    if pool == {x} {
      assert IsBest(rows, pool, x);
    } else {
      var rest := pool - {x};
      BestExists(rows, rest);
      var b :| IsBest(rows, rest, b);
      assert pool == rest + {x};
      assert IsBest(rows, pool, if Outranks(rows[x], rows[b]) then x else b);
    }
  }

  lemma {:induction false} PickedFits(rows: map<JobId, Row>, pool: set<JobId>, ids: seq<JobId>)
    requires pool <= rows.Keys && PickedInOrder(rows, pool, ids)
    ensures |ids| <= |pool|
    decreases |ids|
  {
    if ids != [] {
      PickedFits(rows, pool - {ids[0]}, ids[1..]);
    }
  }

  lemma {:induction false} PickedIsTop(rows: map<JobId, Row>, pool: set<JobId>, ids: seq<JobId>)
    requires pool <= rows.Keys && PickedInOrder(rows, pool, ids)
    ensures IsTop(rows, pool, ids)
    decreases |ids|
  {
    if ids != [] {
      var rest := ids[1..];
      PickedIsTop(rows, pool - {ids[0]}, rest);
      assert forall i :: 0 < i < |ids| ==> ids[i] == rest[i - 1];
      forall e, i | e in pool && e !in ids && 0 <= i < |ids|
        ensures !Outranks(rows[e], rows[ids[i]])
      {
        if i > 0 {
          assert e !in rest;
          assert !Outranks(rows[e], rows[rest[i - 1]]);
        }
      }
    }
  }

  lemma {:induction false} TopIsPicked(rows: map<JobId, Row>, pool: set<JobId>, ids: seq<JobId>)
    requires pool <= rows.Keys && IsTop(rows, pool, ids)
    ensures PickedInOrder(rows, pool, ids)
    decreases |ids|
  {
    if ids != [] {
      var rest := ids[1..];
      forall e | e in pool
        ensures !Outranks(rows[e], rows[ids[0]])
      {
        if e in ids {
          var j :| 0 <= j < |ids| && ids[j] == e;
        }
      }
      assert forall i :: 0 <= i < |rest| ==> rest[i] == ids[i + 1];
      TopIsPicked(rows, pool - {ids[0]}, rest);
    }
  }

  lemma TopExtends(rows: map<JobId, Row>, pool: set<JobId>, ids: seq<JobId>, best: JobId)
    requires pool <= rows.Keys && IsTop(rows, pool, ids)
    requires IsBest(rows, pool - Elements(ids), best)
    ensures IsTop(rows, pool, ids + [best])
    ensures Elements(ids + [best]) == Elements(ids) + {best}
  {
    assert best !in ids by {
      assert best !in Elements(ids);
    }
    assert forall x :: x in ids ==> x in ids + [best];
    assert forall e :: e in pool && e !in ids ==> e in pool - Elements(ids);
  }

  // A batch is exactly what repeated picking of the best remaining row gives.
  lemma BatchIffPicked(rows: map<JobId, Row>, now: int, limit: int, ids: seq<JobId>)
    ensures IsBatch(rows, now, limit, ids) <==>
            |ids| == BatchSize(limit, |Eligible(rows, now)|) && PickedInOrder(rows, Eligible(rows, now), ids)
  {
    var pool := Eligible(rows, now);
    if PickedInOrder(rows, pool, ids) {
      PickedIsTop(rows, pool, ids);
    }
    if IsTop(rows, pool, ids) {
      TopIsPicked(rows, pool, ids);
    }
  }

  // --- The keys of a batch are forced, though its rows are not ---

  lemma {:induction false} DistinctCount(ids: seq<JobId>)
    requires Distinct(ids)
    ensures |Elements(ids)| == |ids|
    decreases |ids|
  {
    if ids != [] {
      DistinctCount(ids[1..]);
      assert Elements(ids) == {ids[0]} + Elements(ids[1..]);
      assert ids[0] !in ids[1..];
    }
  }

  lemma LargerHasMore(a: set<JobId>, b: set<JobId>) returns (x: JobId)
    requires |a| > |b|
    ensures x in a && x !in b
  {
    var left := a - b;
    assert a == left + a * b && b == a * b + (b - a);
    assert |left| > 0;
    NoMembersMeansEmpty(left);
    x :| x in left;
  }

  lemma NotAheadAt(rows: map<JobId, Row>, pool: set<JobId>, a: seq<JobId>, b: seq<JobId>, i: nat)
    requires pool <= rows.Keys && IsTop(rows, pool, a) && IsTop(rows, pool, b)
    requires |a| == |b| && i < |a|
    ensures !Outranks(rows[a[i]], rows[b[i]])
  {
    // The first i + 1 of a cannot all be among the first i of b.
    var ahead, before := a[..i + 1], b[..i];
    DistinctCount(ahead);
    DistinctCount(before);
    var x := LargerHasMore(Elements(ahead), Elements(before));
    var k :| 0 <= k <= i && a[k] == x;
    assert k == i || !Outranks(rows[a[i]], rows[x]);
    assert !Outranks(rows[x], rows[b[i]]) by {
      if x in b {
        var m :| 0 <= m < |b| && b[m] == x;
        forall q | 0 <= q < i
          ensures b[q] != x
        {
          assert before[q] in Elements(before) && before[q] == b[q];
        }
        assert i <= m;
      }
    }
  }

  // Any two answers list the same keys in the same order.
  lemma KeysForced(rows: map<JobId, Row>, now: int, limit: int, a: seq<JobId>, b: seq<JobId>)
    requires IsBatch(rows, now, limit, a) && IsBatch(rows, now, limit, b)
    ensures |a| == |b| && forall i :: 0 <= i < |a| ==> Key(rows[a[i]]) == Key(rows[b[i]])
  {
    forall i | 0 <= i < |a|
      ensures Key(rows[a[i]]) == Key(rows[b[i]])
    {
      NotAheadAt(rows, Eligible(rows, now), a, b, i);
      NotAheadAt(rows, Eligible(rows, now), b, a, i);
    }
  }

  // --- k single leases at one clock ---

  ghost predicate SinglesRun(t: Table, now: int, until: int, worker: string, picks: seq<seq<JobId>>)
    decreases |picks|
  {
    picks == [] ||
    (IsBatch(t.rows, now, 1, picks[0])
     && SinglesRun(Apply(t, Lease(picks[0], worker, now, until)), now, until, worker, picks[1..]))
  }

  function AfterSingles(t: Table, now: int, until: int, worker: string, picks: seq<seq<JobId>>): Table
    decreases |picks|
  {
    if picks == [] then t
    else AfterSingles(Apply(t, Lease(picks[0], worker, now, until)), now, until, worker, picks[1..])
  }

  lemma {:induction false} PickedFrame(rows: map<JobId, Row>, rows': map<JobId, Row>, pool: set<JobId>, ids: seq<JobId>)
    requires pool <= rows.Keys && pool <= rows'.Keys
    requires forall e :: e in pool ==> rows[e] == rows'[e]
    requires PickedInOrder(rows, pool, ids)
    ensures PickedInOrder(rows', pool, ids)
    decreases |ids|
  {
    if ids != [] {
      PickedFrame(rows, rows', pool - {ids[0]}, ids[1..]);
    }
  }

  lemma LeaseShrinksEligible(t: Table, worker: string, now: int, until: int, ids: seq<JobId>)
    ensures var u := Apply(t, Lease(ids, worker, now, until));
            && Eligible(u.rows, now) == Eligible(t.rows, now) - Elements(ids)
            && (forall e :: e in Eligible(u.rows, now) ==> u.rows[e] == t.rows[e])
  {
  }

  lemma {:induction false} SinglesPicked(t: Table, now: int, until: int, worker: string, picks: seq<seq<JobId>>)
    requires SinglesRun(t, now, until, worker, picks)
    ensures PickedInOrder(t.rows, Eligible(t.rows, now), Flatten(picks))
    ensures |Flatten(picks)| == BatchSize(|picks|, |Eligible(t.rows, now)|)
    decreases |picks|
  {
    if picks != [] {
      var pool := Eligible(t.rows, now);
      var u := Apply(t, Lease(picks[0], worker, now, until));
      var rest := Flatten(picks[1..]);
      SinglesPicked(u, now, until, worker, picks[1..]);
      LeaseShrinksEligible(t, worker, now, until, picks[0]);
      PickedFrame(u.rows, t.rows, Eligible(u.rows, now), rest);
      BatchIffPicked(t.rows, now, 1, picks[0]);
      if picks[0] == [] {
        assert pool == {} && Eligible(u.rows, now) == {};
        assert Flatten(picks) == rest;
      } else {
        var x := picks[0][0];
        assert picks[0] == [x] && Elements(picks[0]) == {x};
        assert Eligible(u.rows, now) == pool - {x};
        assert Flatten(picks)[0] == x && Flatten(picks)[1..] == rest;
        assert PickedInOrder(t.rows, pool, Flatten(picks));
      }
    }
  }

  lemma {:induction false} SinglesTable(t: Table, now: int, until: int, worker: string, picks: seq<seq<JobId>>)
    ensures AfterSingles(t, now, until, worker, picks) == Apply(t, Lease(Flatten(picks), worker, now, until))
    decreases |picks|
  {
    if picks == [] {
      assert Apply(t, Lease([], worker, now, until)).rows == t.rows;
    } else {
      var u := Apply(t, Lease(picks[0], worker, now, until));
      SinglesTable(u, now, until, worker, picks[1..]);
      assert Apply(u, Lease(Flatten(picks[1..]), worker, now, until)).rows
          == Apply(t, Lease(Flatten(picks), worker, now, until)).rows;
    }
  }

  // Batching changes nothing: k single leases at a fixed clock are one batch of k,
  // they leave the same table, and they take the keys any batch of k would take.
  lemma SinglesAreOneBatch(t: Table, now: int, until: int, worker: string, picks: seq<seq<JobId>>, batch: seq<JobId>)
    requires SinglesRun(t, now, until, worker, picks)
    requires IsBatch(t.rows, now, |picks|, batch)
    ensures IsBatch(t.rows, now, |picks|, Flatten(picks))
    ensures AfterSingles(t, now, until, worker, picks) == Apply(t, Lease(Flatten(picks), worker, now, until))
    ensures var singles := Flatten(picks);
            |singles| == |batch| && forall i :: 0 <= i < |batch| ==> Key(t.rows[singles[i]]) == Key(t.rows[batch[i]])
  {
    SinglesPicked(t, now, until, worker, picks);
    BatchIffPicked(t.rows, now, |picks|, Flatten(picks));
    SinglesTable(t, now, until, worker, picks);
    KeysForced(t.rows, now, |picks|, Flatten(picks), batch);
  }
}
