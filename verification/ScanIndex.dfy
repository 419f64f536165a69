// The scanner's duplicate index.  It hashes from the second file of a size on and never hashes
// the first one itself: the first one's signature comes from a disk record or not at all.
module ScanIndex {
  import opened Wrappers
  import opened FileSystem
  import opened BoundaryHash
  import DedupeIndex

  type Signatures = DedupeIndex.Signatures
  type Report = DedupeIndex.Report

  // A stored record: the combined signature stands for its two hashes.
  datatype FileRecord = FileRecord(size: int, signature: Digest)

  type Records = map<Path, FileRecord>

  // A recorded path, with the signature it is known by.
  datatype Entry = Entry(path: Path, known: Option<Digest>)

  // --- The index as one list of entries for each size ---

  type Entries = map<int, seq<Entry>>

  function Class(es: Entries, size: int): seq<Entry> {
    if size in es then es[size] else []
  }

  function RecordSignature(records: Records, path: Path, size: int): Option<Digest> {
    if path in records && records[path].size == size then Some(records[path].signature) else None
  }

  predicate HasPath(class_: seq<Entry>, path: Path) {
    exists i :: 0 <= i < |class_| && class_[i].path == path
  }

  predicate Knows(class_: seq<Entry>, d: Digest, i: int) {
    0 <= i < |class_| && class_[i].known == Some(d)
  }

  function Answer(sig: Signatures, es: Entries, path: Path, size: int): Report {
    var class_ := Class(es, size);
    if class_ == [] || HasPath(class_, path) then DedupeIndex.NotDuplicate
    else
      match sig(path, size)
      case None => DedupeIndex.Unreadable
      case Some(d) =>
        var m := Known(class_);
        if d in m then DedupeIndex.DuplicateOf(m[d]) else DedupeIndex.NotDuplicate
  }

  function Recorded(sig: Signatures, records: Records, es: Entries, path: Path, size: int): Entries {
    var class_ := Class(es, size);
    if class_ == [] then es[size := [Entry(path, RecordSignature(records, path, size))]]
    else if HasPath(class_, path) || !Answer(sig, es, path, size).NotDuplicate? then es
    else es[size := class_ + [Entry(path, sig(path, size))]]
  }

  // Signature to path, as the in-memory map has it.
  function Known(class_: seq<Entry>): map<Digest, Path>
    decreases |class_|
  {
    if class_ == [] then map[]
    else
      var m, e := Known(class_[..|class_| - 1]), class_[|class_| - 1];
      match e.known
      case None => m
      case Some(d) => m[d := e.path]
  }

  lemma {:induction false} KnownIs(class_: seq<Entry>, d: Digest)
    ensures d in Known(class_) <==> exists i :: Knows(class_, d, i)
    ensures d in Known(class_) ==> exists i :: Knows(class_, d, i) && class_[i].path == Known(class_)[d]
    decreases |class_|
  {
    if class_ != [] {
      var n := |class_| - 1;
      var before := class_[..n];
      KnownIs(before, d);
      forall i | 0 <= i < n
        ensures Knows(before, d, i) <==> Knows(class_, d, i)
      {
      }
      if Knows(class_, d, n) {
        assert Known(class_)[d] == class_[n].path;
      } else if d in Known(before) {
        var i :| Knows(before, d, i) && before[i].path == Known(before)[d];
        assert Knows(class_, d, i);
      }
    }
  }

  // --- Whole histories of calls, records and clears ---

  datatype Op =
    | Check(path: Path, size: int)
    | AddRecord(path: Path, record: FileRecord)
    | ClearMemory

  datatype State = State(es: Entries, records: Records)

  function Step(sig: Signatures, s: State, op: Op): State {
    match op
    case Check(path, size) => s.(es := Recorded(sig, s.records, s.es, path, size))
    case AddRecord(path, r) => s.(records := s.records[path := r])
    case ClearMemory => s.(es := map[])
  }

  function Run(sig: Signatures, s: State, ops: seq<Op>): State
    decreases |ops|
  {
    if ops == [] then s else Run(sig, Step(sig, s, ops[0]), ops[1..])
  }

  const NEW: State := State(map[], map[])

  // Every entry behind the first is known by its own signature, no path stands twice in a class
  // and no signature twice.
  ghost predicate WellKept(sig: Signatures, class_: seq<Entry>, size: int) {
    && (forall i :: 0 < i < |class_| ==> class_[i].known.Some? && class_[i].known == sig(class_[i].path, size))
    && (forall i, j :: 0 <= i < j < |class_| ==> class_[i].path != class_[j].path)
    && (forall i, j, d :: 0 <= i < j && Knows(class_, d, i) ==> !Knows(class_, d, j))
  }

  ghost predicate StateOk(sig: Signatures, s: State) {
    forall size :: size in s.es ==> s.es[size] != [] && WellKept(sig, s.es[size], size)
  }

  lemma ClassGrows(sig: Signatures, class_: seq<Entry>, e: Entry, size: int)
    requires WellKept(sig, class_, size) && !HasPath(class_, e.path)
    requires e.known.Some? && e.known == sig(e.path, size) && e.known.value !in Known(class_)
    ensures class_ != [] ==> WellKept(sig, class_ + [e], size)
  {
    var n, longer := |class_|, class_ + [e];
    assert forall i :: 0 <= i < n ==> longer[i] == class_[i];
    assert forall i, d :: 0 <= i < n ==> (Knows(longer, d, i) <==> Knows(class_, d, i));
    KnownIs(class_, e.known.value);
    forall i, j, d | 0 <= i < j && Knows(longer, d, i)
      ensures !Knows(longer, d, j)
    {
      if j == n {
        assert Knows(class_, d, i);
      } else if j < n {
        assert Knows(class_, d, i) && !Knows(class_, d, j);
      }
    }
  }

  lemma StepKeepsState(sig: Signatures, s: State, op: Op)
    requires StateOk(sig, s)
    ensures StateOk(sig, Step(sig, s, op))
  {
    if op.Check? {
      var class_ := Class(s.es, op.size);
      var t := Step(sig, s, op);
      forall size | size in t.es
        ensures t.es[size] != [] && WellKept(sig, t.es[size], size)
      {
        if size == op.size && class_ != [] && t.es[size] != class_ {
          ClassGrows(sig, class_, Entry(op.path, sig(op.path, size)), size);
        }
      }
    }
  }

  lemma {:induction false} RunKeepsState(sig: Signatures, s: State, ops: seq<Op>)
    requires StateOk(sig, s)
    ensures StateOk(sig, Run(sig, s, ops))
    decreases |ops|
  {
    if ops != [] {
      StepKeepsState(sig, s, ops[0]);
      RunKeepsState(sig, Step(sig, s, ops[0]), ops[1..]);
    }
  }

  // Naive search over a class, with or without its first entry.
  ghost predicate SameSignatureRecorded(sig: Signatures, class_: seq<Entry>, size: int, d: Digest, from: nat) {
    exists i :: from <= i < |class_| && sig(class_[i].path, size) == Some(d)
  }

  // Without disk records: a duplicate is a match against a recorded path other than the first of
  // its size.
  lemma WithoutRecords(sig: Signatures, s: State, path: Path, size: int, d: Digest)
    requires StateOk(sig, s) && sig(path, size) == Some(d)
    requires Class(s.es, size) != [] ==> Class(s.es, size)[0].known == None
    ensures Answer(sig, s.es, path, size).DuplicateOf? <==>
            !HasPath(Class(s.es, size), path) && SameSignatureRecorded(sig, Class(s.es, size), size, d, 1)
  {
    var class_ := Class(s.es, size);
    KnownIs(class_, d);
    if SameSignatureRecorded(sig, class_, size, d, 1) {
      var i :| 1 <= i < |class_| && sig(class_[i].path, size) == Some(d);
      assert Knows(class_, d, i);
    }
    if i :| Knows(class_, d, i) {
      assert i >= 1;
    }
  }

  // With a truthful record for the first path: a duplicate is a match against any recorded path.
  lemma WithTruthfulRecords(sig: Signatures, s: State, path: Path, size: int, d: Digest)
    requires StateOk(sig, s) && sig(path, size) == Some(d)
    requires Class(s.es, size) != [] ==>
               Class(s.es, size)[0].known == sig(Class(s.es, size)[0].path, size)
    ensures Answer(sig, s.es, path, size).DuplicateOf? <==>
            !HasPath(Class(s.es, size), path) && SameSignatureRecorded(sig, Class(s.es, size), size, d, 0)
  {
    var class_ := Class(s.es, size);
    KnownIs(class_, d);
    if SameSignatureRecorded(sig, class_, size, d, 0) {
      var i :| 0 <= i < |class_| && sig(class_[i].path, size) == Some(d);
      assert Knows(class_, d, i);
    }
  }

  // The path reported is a recorded one that is known by the signature.
  lemma ReportedPathIsKnown(sig: Signatures, es: Entries, path: Path, size: int)
    requires Answer(sig, es, path, size).DuplicateOf?
    ensures exists i :: 0 <= i < |Class(es, size)| && Class(es, size)[i].path == Answer(sig, es, path, size).path
                        && Class(es, size)[i].known == sig(path, size)
  {
    var class_, d := Class(es, size), sig(path, size).value;
    KnownIs(class_, d);
    var i :| Knows(class_, d, i) && class_[i].path == Known(class_)[d];
  }

  // --- Cold start ---

  // Every record tells the truth, and every file that is checked has one, at its true size.
  ghost predicate Truthful(sig: Signatures, records: Records) {
    forall p :: p in records ==> sig(p, records[p].size) == Some(records[p].signature)
  }

  ghost predicate ColdStartOp(sig: Signatures, s: State, op: Op) {
    match op
    case Check(path, size) => path in s.records && s.records[path].size == size
    case AddRecord(path, r) => sig(path, r.size) == Some(r.signature)
    case ClearMemory => true
  }

  ghost predicate ColdStartRun(sig: Signatures, s: State, ops: seq<Op>)
    decreases |ops|
  {
    ops == [] || (ColdStartOp(sig, s, ops[0]) && ColdStartRun(sig, Step(sig, s, ops[0]), ops[1..]))
  }

  ghost predicate FirstsKnown(sig: Signatures, s: State) {
    Truthful(sig, s.records)
    && forall size :: size in s.es && s.es[size] != [] ==> s.es[size][0].known == sig(s.es[size][0].path, size)
  }

  lemma {:induction false} ColdStartKeepsFirsts(sig: Signatures, s: State, ops: seq<Op>)
    requires StateOk(sig, s) && FirstsKnown(sig, s) && ColdStartRun(sig, s, ops)
    ensures StateOk(sig, Run(sig, s, ops)) && FirstsKnown(sig, Run(sig, s, ops))
    decreases |ops|
  {
    if ops != [] {
      StepKeepsState(sig, s, ops[0]);
      ColdStartKeepsFirsts(sig, Step(sig, s, ops[0]), ops[1..]);
    }
  }

  // After any cold-start history, clears included, the answer is that of a naive search.
  lemma ColdStartIsNaiveSearch(sig: Signatures, ops: seq<Op>, path: Path, size: int, d: Digest)
    requires ColdStartRun(sig, NEW, ops) && sig(path, size) == Some(d)
    ensures var es := Run(sig, NEW, ops).es;
            Answer(sig, es, path, size).DuplicateOf? <==>
            !HasPath(Class(es, size), path) && SameSignatureRecorded(sig, Class(es, size), size, d, 0)
  {
    ColdStartKeepsFirsts(sig, NEW, ops);
    WithTruthfulRecords(sig, Run(sig, NEW, ops), path, size, d);
  }

  ghost predicate NoRecords(ops: seq<Op>) {
    forall op :: op in ops ==> !op.AddRecord?
  }

  ghost predicate FirstsUnknown(s: State) {
    s.records == map[] && forall size :: size in s.es && s.es[size] != [] ==> s.es[size][0].known == None
  }

  lemma {:induction false} NoRecordsNoFirsts(sig: Signatures, s: State, ops: seq<Op>)
    requires NoRecords(ops) && FirstsUnknown(s)
    ensures FirstsUnknown(Run(sig, s, ops))
    decreases |ops|
  {
    if ops != [] {
      assert ops[0] in ops;
      assert forall op :: op in ops[1..] ==> op in ops;
      NoRecordsNoFirsts(sig, Step(sig, s, ops[0]), ops[1..]);
    }
  }

  // Without any records the first file of a size is never matched.
  lemma WithoutRecordsFirstsAreMissed(sig: Signatures, ops: seq<Op>, path: Path, size: int, d: Digest)
    requires NoRecords(ops) && sig(path, size) == Some(d)
    ensures var es := Run(sig, NEW, ops).es;
            Answer(sig, es, path, size).DuplicateOf? <==>
            !HasPath(Class(es, size), path) && SameSignatureRecorded(sig, Class(es, size), size, d, 1)
  {
    RunKeepsState(sig, NEW, ops);
    NoRecordsNoFirsts(sig, NEW, ops);
    WithoutRecords(sig, Run(sig, NEW, ops), path, size, d);
  }

  // Two files of one size and one signature, checked in turn from a cold start without records: the
  // second is not reported, and a third is reported against the second.
  lemma SecondCopyIsMissed(sig: Signatures, a: Path, b: Path, c: Path, size: int, d: Digest)
    requires a != b && a != c && b != c
    requires sig(a, size) == Some(d) && sig(b, size) == Some(d) && sig(c, size) == Some(d)
    ensures Answer(sig, Run(sig, NEW, [Check(a, size)]).es, b, size) == DedupeIndex.NotDuplicate
    ensures Answer(sig, Run(sig, NEW, [Check(a, size), Check(b, size)]).es, c, size) == DedupeIndex.DuplicateOf(b)
  {
    var s1 := Step(sig, NEW, Check(a, size));
    var s2 := Step(sig, s1, Check(b, size));
    assert [Check(a, size)][1..] == [] && [Check(b, size)][1..] == [];
    assert [Check(a, size), Check(b, size)][1..] == [Check(b, size)];
    var first, second := Entry(a, None), Entry(b, Some(d));
    assert Run(sig, NEW, [Check(a, size)]) == s1;
    assert Run(sig, s1, [Check(b, size)]) == s2;
    assert [first][..0] == [] && Known([first]) == map[];
    assert Class(s1.es, size) == [first] && !HasPath([first], b);
    assert [first, second][..1] == [first] && Known([first, second]) == map[d := b];
    assert Class(s2.es, size) == [first, second] && !HasPath([first, second], c);
  }

  // A path is read only when others of its size are recorded and it is not; what is not reported is
  // recorded, and nothing else changes.
  lemma RecordedInWords(sig: Signatures, records: Records, es: Entries, path: Path, size: int)
    ensures var now, report := Recorded(sig, records, es, path, size), Answer(sig, es, path, size);
            && (report.Unreadable? <==>
                  Class(es, size) != [] && !HasPath(Class(es, size), path) && sig(path, size).None?)
            && (HasPath(Class(now, size), path) <==> HasPath(Class(es, size), path) || report.NotDuplicate?)
            && (forall s :: s != size ==> Class(now, s) == Class(es, s))
            && Class(es, size) <= Class(now, size)
  {
    var now, class_ := Recorded(sig, records, es, path, size), Class(es, size);
    if Class(now, size) != class_ {
      assert Class(now, size)[|class_|].path == path;
    }
  }

  // --- The index ---

  class Index {
    const sig: Signatures
    var sizeIndex: map<int, seq<Path>>
    var sigIndex: map<int, map<Digest, Path>>
    var diskRecords: Records
    ghost var entries: Entries

    function Paths(class_: seq<Entry>): seq<Path> {
      seq(|class_|, i requires 0 <= i < |class_| => class_[i].path)
    }

    ghost predicate ClassOk(size: int)
      reads this
    {
      && (size in sizeIndex <==> size in entries)
      && (size in entries ==> entries[size] != [] && sizeIndex[size] == Paths(entries[size]))
      && (size in sigIndex ==> size in entries && sigIndex[size] == Known(entries[size]))
      && (size in entries && size !in sigIndex ==> Known(entries[size]) == map[])
    }

    ghost predicate Valid()
      reads this
    {
      forall size :: ClassOk(size)
    }

    ghost function Abstract(): State
      reads this
    {
      State(entries, diskRecords)
    }

    constructor (sig: Signatures)
      ensures Valid() && Abstract() == NEW && this.sig == sig
    {
      this.sig := sig;
      sizeIndex, sigIndex, diskRecords, entries := map[], map[], map[], map[];
    }

    method CheckAndRecord(path: Path, size: int) returns (report: Report)
      requires Valid()
      modifies this
      ensures Valid()
      ensures report == Answer(sig, old(entries), path, size)
      ensures Abstract() == Step(sig, old(Abstract()), Check(path, size))
    {
      assert ClassOk(size);
      if size !in sizeIndex {
        sizeIndex := sizeIndex[size := [path]];
        if path in diskRecords && diskRecords[path].size == size {
          if size !in sigIndex {
            sigIndex := sigIndex[size := map[]];
          }
          sigIndex := sigIndex[size := sigIndex[size][diskRecords[path].signature := path]];
        }
        entries := entries[size := [Entry(path, RecordSignature(diskRecords, path, size))]];
        assert [Entry(path, RecordSignature(diskRecords, path, size))][..0] == [];
        forall s
          ensures ClassOk(s)
        {
          assert old(ClassOk(s));
        }
        return DedupeIndex.NotDuplicate;
      }
      var paths := sizeIndex[size];
      for i := 0 to |paths|
        invariant forall k :: 0 <= k < i ==> paths[k] != path
      {
        if paths[i] == path {
          assert entries[size][i].path == path;
          return DedupeIndex.NotDuplicate;
        }
      }
      assert !HasPath(entries[size], path) by {
        assert forall k :: 0 <= k < |entries[size]| ==> entries[size][k].path == paths[k];
      }
      var mine := sig(path, size);
      if mine.None? {
        return DedupeIndex.Unreadable;
      }
      var sizeSigs := if size in sigIndex then sigIndex[size] else map[];
      if mine.value in sizeSigs {
        report := DedupeIndex.DuplicateOf(sizeSigs[mine.value]);
      } else {
        report := DedupeIndex.NotDuplicate;
        sizeSigs := sizeSigs[mine.value := path];
        sizeIndex := sizeIndex[size := sizeIndex[size] + [path]];
        ghost var longer := entries[size] + [Entry(path, mine)];
        assert longer[..|entries[size]|] == entries[size];
        entries := entries[size := longer];
      }
      sigIndex := sigIndex[size := sizeSigs];
      forall s
        ensures ClassOk(s)
      {
        assert old(ClassOk(s));
      }
    }

    method AddDiskRecord(path: Path, record: FileRecord)
      requires Valid()
      modifies this
      ensures Valid()
      ensures Abstract() == Step(sig, old(Abstract()), AddRecord(path, record))
      ensures entries == old(entries) && diskRecords == old(diskRecords)[path := record]
    {
      diskRecords := diskRecords[path := record];
      forall s
        ensures ClassOk(s)
      {
        assert old(ClassOk(s));
      }
    }

    method Clear()
      requires Valid()
      modifies this
      ensures Valid()
      ensures Abstract() == Step(sig, old(Abstract()), ClearMemory)
      ensures sizeIndex == map[] && sigIndex == map[] && diskRecords == old(diskRecords)
    {
      sizeIndex, sigIndex := map[], map[];
      entries := map[];
    }
  }
}
