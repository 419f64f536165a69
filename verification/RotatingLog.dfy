// The rotating log writer: one current file and a chain of numbered backups.
module RotatingLog {
  import opened Sequences
  import opened FileSystem

  const DEFAULT_MAX_SIZE: int := 10 * 1024 * 1024
  const DEFAULT_BACKUPS: int := 7

  // The suffix is a single character, '0' + i; a code point that is no character becomes U+FFFD.
  function SlotChar(i: nat): char {
    var code := 0x30 + i;
    if code < 0xD800 || 0xE000 <= code < 0x11_0000 then code as char else '\U{FFFD}'
  }

  // Slot 0 is the current file.
  function SlotPath(path: Path, i: nat): Path {
    if i == 0 then path else path + "." + [SlotChar(i)]
  }

  // Up to nine backups the suffix is the slot's digit; the tenth is a colon.
  lemma FirstSlotNames(path: Path)
    ensures SlotPath(path, 0) == path && SlotPath(path, 1) == path + ".1" && SlotPath(path, 2) == path + ".2"
    ensures SlotPath(path, 7) == path + ".7" && SlotPath(path, 9) == path + ".9" && SlotPath(path, 10) == path + ".:"
  {
    assert "." + ['1'] == ".1" && "." + ['2'] == ".2" && "." + ['7'] == ".7" && "." + ['9'] == ".9" && "." + [':'] == ".:";
  }

  const DISTINCT_SLOTS: nat := 0xD800 - 0x30

  function SlotPaths(path: Path, n: nat): seq<Path> {
    seq(n + 1, i requires 0 <= i < n + 1 => SlotPath(path, i))
  }

  // Slot names stay apart up to 55248 backups and not beyond.
  lemma SlotsDistinctIff(path: Path, n: nat)
    ensures Distinct(SlotPaths(path, n)) <==> n <= DISTINCT_SLOTS
  {
    var names := SlotPaths(path, n);
    if n <= DISTINCT_SLOTS {
      forall i, j | 0 <= i < j <= n
        ensures names[i] != names[j]
      {
        SlotPathsDiffer(path, i, j);
      }
    } else {
      assert names[DISTINCT_SLOTS] == names[DISTINCT_SLOTS + 1];
    }
  }

  lemma SlotPathsDiffer(path: Path, i: nat, j: nat)
    requires i < j <= DISTINCT_SLOTS
    ensures SlotPath(path, i) != SlotPath(path, j)
  {
    var a, b := SlotPath(path, i), SlotPath(path, j);
    assert |b| == |path| + 2 && b[|path| + 1] == SlotChar(j);
    if i > 0 {
      assert a[|path| + 1] == SlotChar(i);
    }
  }

  // What a slot holds; a missing file counts as nothing.
  function At(files: Files, name: Path): Content {
    if name in files then files[name] else []
  }

  // Backups from slot n, the oldest, down to 1, then the current file.
  function Chain(files: Files, names: seq<Path>, n: nat): Content
    requires n < |names|
  {
    if n == 0 then At(files, names[0]) else At(files, names[n]) + Chain(files, names, n - 1)
  }

  predicate IsSuffix(a: Content, b: Content) {
    |a| <= |b| && b[|b| - |a|..] == a
  }

  lemma SuffixAppend(a: Content, b: Content, p: Content)
    requires IsSuffix(a, b)
    ensures IsSuffix(a + p, b + p)
  {
    var d := |b| - |a|;
    assert (b + p)[d..] == b[d..] + p;
  }

  lemma SuffixTrans(a: Content, b: Content, c: Content)
    requires IsSuffix(a, b) && IsSuffix(b, c)
    ensures IsSuffix(a, c)
  {
    assert c[|c| - |a|..] == c[|c| - |b|..][|b| - |a|..];
  }

  // The two names hold the same, or are both missing.
  predicate SameFile(a: Files, x: Path, b: Files, y: Path) {
    (x in a <==> y in b) && (x in a ==> a[x] == b[y])
  }

  // After a rotation every slot is the slot one below it before, gaps included, and the current
  // file is empty.
  ghost predicate Shifted(before: Files, after: Files, names: seq<Path>) {
    && |names| > 0
    && (forall i :: 1 <= i < |names| ==> SameFile(after, names[i], before, names[i - 1]))
    && names[0] in after && after[names[0]] == []
  }

  // Half way down: slots above i + 1 have moved, i + 1 is free, the rest are as they were.
  ghost predicate Between(before: Files, now: Files, names: seq<Path>, i: nat) {
    && i < |names|
    && (forall k :: i + 1 < k < |names| ==> SameFile(now, names[k], before, names[k - 1]))
    && (i + 1 < |names| ==> names[i + 1] !in now)
    && (forall k :: 0 <= k <= i ==> SameFile(now, names[k], before, names[k]))
  }

  function Renamed(files: Files, src: Path, dst: Path): Files {
    if src in files then (files - {src})[dst := files[src]] else files
  }

  lemma TopStep(before: Files, names: seq<Path>)
    requires Distinct(names) && |names| > 1
    ensures Between(before, before - {names[|names| - 1]}, names, |names| - 2)
  {
  }

  lemma DownStep(before: Files, now: Files, names: seq<Path>, i: nat)
    requires Distinct(names) && Between(before, now, names, i) && 0 < i && i + 1 < |names|
    ensures Between(before, Renamed(now, names[i], names[i + 1]), names, i - 1)
  {
    var next := Renamed(now, names[i], names[i + 1]);
    forall k | i < k < |names|
      ensures SameFile(next, names[k], before, names[k - 1])
    {
      assert k > i + 1 ==> SameFile(now, names[k], before, names[k - 1]);
      assert SameFile(now, names[i], before, names[i]);
    }
  }

  // O_CREATE: an existing file is kept.
  function Reopened(files: Files, name: Path): Files {
    if name in files then files else files[name := []]
  }

  lemma LastStep(before: Files, now: Files, names: seq<Path>)
    requires Distinct(names) && |names| > 1 && Between(before, now, names, 0)
    ensures Shifted(before, Reopened(Renamed(now, names[0], names[1]), names[0]), names)
  {
    assert names[0] !in Renamed(now, names[0], names[1]);
    var next := Reopened(Renamed(now, names[0], names[1]), names[0]);
    forall k | 1 <= k < |names|
      ensures SameFile(next, names[k], before, names[k - 1])
    {
      assert k > 1 ==> SameFile(now, names[k], before, names[k - 1]);
      assert SameFile(now, names[0], before, names[0]);
    }
  }

  // Slots i down to 1 move up by one name.
  function Cascade(files: Files, names: seq<Path>, i: nat): Files
    requires i + 1 < |names|
    decreases i
  {
    if i == 0 then files else Cascade(Renamed(files, names[i], names[i + 1]), names, i - 1)
  }

  function Rotated(files: Files, names: seq<Path>): Files
    requires |names| > 1
  {
    var top := |names| - 1;
    Reopened(Renamed(Cascade(files - {names[top]}, names, top - 1), names[0], names[1]), names[0])
  }

  // What one write does to the files.
  function Written(files: Files, names: seq<Path>, maxSize: int, p: Content): Files
    requires |names| > 1
  {
    var room := if |At(files, names[0])| + |p| > maxSize then Rotated(files, names) else files;
    room[names[0] := At(room, names[0]) + p]
  }

  lemma {:induction false} CascadeMovesDown(before: Files, now: Files, names: seq<Path>, i: nat)
    requires Distinct(names) && i + 1 < |names| && Between(before, now, names, i)
    ensures Between(before, Cascade(now, names, i), names, 0)
    decreases i
  {
    if i > 0 {
      DownStep(before, now, names, i);
      CascadeMovesDown(before, Renamed(now, names[i], names[i + 1]), names, i - 1);
    }
  }

  // With names of their own the slots all move, gaps included.
  lemma RotatedIsShifted(before: Files, names: seq<Path>)
    requires Distinct(names) && |names| > 1
    ensures Shifted(before, Rotated(before, names), names)
  {
    var top := |names| - 1;
    TopStep(before, names);
    CascadeMovesDown(before, before - {names[top]}, names, top - 1);
    LastStep(before, Cascade(before - {names[top]}, names, top - 1), names);
  }

  lemma CurrentIsEmpty(before: Files, names: seq<Path>)
    requires |names| > 1 && names[0] != names[1]
    ensures names[0] in Rotated(before, names) && Rotated(before, names)[names[0]] == []
  {
  }

  lemma {:induction false} ShiftedChain(before: Files, after: Files, names: seq<Path>, k: nat)
    requires Shifted(before, after, names) && k + 1 < |names|
    ensures Chain(after, names, k + 1) == Chain(before, names, k)
  {
    assert SameFile(after, names[k + 1], before, names[k]);
    if k == 0 {
      assert Chain(after, names, 0) == [];
    } else {
      ShiftedChain(before, after, names, k - 1);
    }
  }

  // A rotation drops the oldest backup and nothing else.
  lemma RotationDropsOldest(before: Files, after: Files, names: seq<Path>, n: nat)
    requires Shifted(before, after, names) && |names| == n + 1 && n > 0
    ensures Chain(before, names, n) == At(before, names[n]) + Chain(after, names, n)
    ensures IsSuffix(Chain(after, names, n), Chain(before, names, n))
  {
    ShiftedChain(before, after, names, n - 1);
  }

  lemma {:induction false} AppendToCurrent(before: Files, names: seq<Path>, n: nat, p: Content)
    requires Distinct(names) && n < |names| && names[0] in before
    ensures var after := before[names[0] := before[names[0]] + p];
            Chain(after, names, n) == Chain(before, names, n) + p
  {
    if n > 0 {
      AppendToCurrent(before, names, n - 1, p);
      assert names[n] != names[0];
    }
  }

  // One write keeps the chain a contiguous tail, when the slots have names of their own.
  lemma WriteKeepsTail(files: Files, names: seq<Path>, n: nat, maxSize: int, history: Content, p: Content)
    requires Distinct(names) && |names| == n + 1 && n > 0 && names[0] in files
    requires IsSuffix(Chain(files, names, n), history)
    ensures IsSuffix(Chain(Written(files, names, maxSize, p), names, n), history + p)
  {
    var room := if |At(files, names[0])| + |p| > maxSize then Rotated(files, names) else files;
    if room != files {
      RotatedIsShifted(files, names);
      RotationDropsOldest(files, room, names, n);
      SuffixTrans(Chain(room, names, n), Chain(files, names, n), history);
      assert names[0] in room;
    }
    AppendToCurrent(room, names, n, p);
    SuffixAppend(Chain(room, names, n), history, p);
  }

  class Writer {
    const path: Path
    const maxSize: int
    const maxBackups: nat
    var files: Files
    var currentSize: int
    // what the chain held at the start, and everything written since
    ghost var history: Content

    ghost function Names(): seq<Path> {
      SlotPaths(path, maxBackups)
    }

    ghost predicate Valid()
      reads this
    {
      && 0 < maxSize && 0 < maxBackups
      && path in files && currentSize == |files[path]|
      && (maxBackups <= DISTINCT_SLOTS ==> IsSuffix(Chain(files, Names(), maxBackups), history))
    }

    // Opens or creates the current file; its size is what is already there.
    constructor (files: Files, path: Path, maxSize: int, maxBackups: int)
      ensures Valid()
      ensures this.path == path && this.maxSize == (if maxSize <= 0 then DEFAULT_MAX_SIZE else maxSize)
      ensures this.maxBackups == (if maxBackups <= 0 then DEFAULT_BACKUPS else maxBackups)
      ensures this.files == Reopened(files, path)
      ensures history == Chain(this.files, Names(), this.maxBackups)
    {
      this.path := path;
      this.maxSize := if maxSize <= 0 then DEFAULT_MAX_SIZE else maxSize;
      this.maxBackups := if maxBackups <= 0 then DEFAULT_BACKUPS else maxBackups;
      this.files := if path in files then files else files[path := []];
      currentSize := if path in files then |files[path]| else 0;
      new;
      history := Chain(this.files, Names(), this.maxBackups);
    }

    method Rename(src: Path, dst: Path)
      modifies this`files
      ensures files == Renamed(old(files), src, dst)
    {
      if src in files {
        files := (files - {src})[dst := files[src]];
      }
    }

    // Drops the oldest backup and moves every other one up a slot, from the top down.
    method Rotate()
      requires 0 < maxBackups
      modifies this`files, this`currentSize
      ensures files == Rotated(old(files), Names()) && path in files && files[path] == []
      ensures maxBackups <= DISTINCT_SLOTS ==> Shifted(old(files), files, Names())
      ensures currentSize == 0
    {
      var names := SlotPaths(path, maxBackups);
      assert names[0] == path && |names[1]| == |path| + 2;
      CurrentIsEmpty(files, names);
      SlotsDistinctIff(path, maxBackups);
      if maxBackups <= DISTINCT_SLOTS {
        RotatedIsShifted(files, names);
      }
      ghost var trimmed := files - {names[maxBackups]};
      var i: nat := maxBackups;
      while i > 0
        invariant i <= maxBackups
        invariant if i == maxBackups then files == old(files)
                  else Cascade(files, names, i) == Cascade(trimmed, names, maxBackups - 1)
      {
        if i == maxBackups {
          files := files - {names[i]};
        } else {
          Rename(names[i], names[i + 1]);
        }
        i := i - 1;
      }
      Rename(names[0], names[1]);
      files := if path in files then files else files[path := []];
      currentSize := 0;
    }

    method Write(p: Content) returns (n: nat)
      requires Valid()
      modifies this
      ensures Valid() && n == |p|
      ensures history == old(history) + p
      ensures files == Written(old(files), Names(), maxSize, p)
      // the current file goes over the limit only by a write that is over it alone
      ensures currentSize > maxSize ==> |p| > maxSize && files[path] == p
      ensures old(currentSize) + |p| <= maxSize ==> files == old(files)[path := old(files)[path] + p]
      ensures old(currentSize) + |p| > maxSize ==> files[path] == p
    {
      ghost var names := Names();
      assert names[0] == path;
      SlotsDistinctIff(path, maxBackups);
      if maxBackups <= DISTINCT_SLOTS {
        WriteKeepsTail(files, names, maxBackups, maxSize, history, p);
      }
      if currentSize + |p| > maxSize {
        Rotate();
        assert [] + p == p;
      }
      files := files[path := files[path] + p];
      currentSize := currentSize + |p|;
      history := history + p;
      n := |p|;
    }
  }

  // After any sequence of writes the backups and the current file are the contiguous tail of what
  // was there at the start followed by everything written, up to 55248 backups.
  method WriteAll(w: Writer, writes: seq<Content>)
    requires w.Valid()
    modifies w
    ensures w.Valid()
    ensures w.history == old(w.history) + Flatten(writes)
    ensures w.maxBackups <= DISTINCT_SLOTS ==>
      IsSuffix(Chain(w.files, w.Names(), w.maxBackups), old(w.history) + Flatten(writes))
  {
    for i := 0 to |writes|
      invariant w.Valid() && w.history == old(w.history) + Flatten(writes[..i])
    {
      FlattenNext(writes, i);
      var _ := w.Write(writes[i]);
    }
    assert writes[..|writes|] == writes;
  }

  // --- Beyond 55248 backups ---

  // Whatever the files were, one write leaves a tail of them and of what was written.
  ghost predicate KeepsTail(path: Path, n: nat)
    requires n > 0
  {
    forall files, maxSize, p :: path in files ==>
      IsSuffix(Chain(Written(files, SlotPaths(path, n), maxSize, p), SlotPaths(path, n), n),
               Chain(files, SlotPaths(path, n), n) + p)
  }

  // The last slot with a name of its own is full, and so is the current file.
  function Crowded(path: Path): Files {
    map[path := [0], SlotPath(path, DISTINCT_SLOTS - 1) := [1]]
  }

  lemma {:induction false} CascadeIdles(files: Files, names: seq<Path>, hi: nat, lo: nat)
    requires lo <= hi && hi + 1 < |names|
    requires forall k :: lo < k <= hi ==> names[k] !in files
    ensures Cascade(files, names, hi) == Cascade(files, names, lo)
    decreases hi
  {
    if lo < hi {
      CascadeIdles(files, names, hi - 1, lo);
    }
  }

  lemma {:induction false} EmptySlotsAddNothing(files: Files, names: seq<Path>, hi: nat, lo: nat)
    requires lo <= hi < |names|
    requires forall k :: lo < k <= hi ==> names[k] !in files
    ensures Chain(files, names, hi) == Chain(files, names, lo)
    decreases hi
  {
    if lo < hi {
      EmptySlotsAddNothing(files, names, hi - 1, lo);
      assert [] + Chain(files, names, hi - 1) == Chain(files, names, hi - 1);
    }
  }

  lemma {:induction false} LongerChain(files: Files, names: seq<Path>, hi: nat, lo: nat)
    requires lo <= hi < |names|
    ensures |Chain(files, names, hi)| >= |Chain(files, names, lo)|
    decreases hi
  {
    if lo < hi {
      LongerChain(files, names, hi - 1, lo);
    }
  }

  lemma OnlyThatSlot(path: Path, k: nat)
    requires k > 0 && k != DISTINCT_SLOTS - 1
    ensures SlotPath(path, k) !in Crowded(path)
  {
    assert |SlotPath(path, k)| == |path| + 2 && SlotPath(path, k)[|path| + 1] == SlotChar(k);
    assert SlotPath(path, DISTINCT_SLOTS - 1)[|path| + 1] == SlotChar(DISTINCT_SLOTS - 1);
  }

  // The full slot after it has moved to the first shared name.
  function Moved(path: Path): Files {
    map[path := [0], SlotPath(path, DISTINCT_SLOTS) := [1]]
  }

  lemma DownToTheFullSlot(path: Path, n: nat)
    requires n > DISTINCT_SLOTS
    ensures var names := SlotPaths(path, n);
            Cascade(Crowded(path) - {names[n]}, names, n - 1) == Cascade(Crowded(path), names, DISTINCT_SLOTS - 1)
  {
    var names, d: nat := SlotPaths(path, n), DISTINCT_SLOTS - 1;
    forall k | d < k <= n
      ensures names[k] !in Crowded(path)
    {
      OnlyThatSlot(path, k);
    }
    assert Crowded(path) - {names[n]} == Crowded(path);
    CascadeIdles(Crowded(path), names, n - 1, d);
  }

  lemma FullSlotMoves(path: Path, n: nat)
    requires n > DISTINCT_SLOTS
    ensures Cascade(Crowded(path), SlotPaths(path, n), DISTINCT_SLOTS - 1) == Moved(path)
  {
    var names, d: nat := SlotPaths(path, n), DISTINCT_SLOTS - 1;
    SlotPathsDiffer(path, 0, d);
    assert Renamed(Crowded(path), names[d], names[d + 1]) == Moved(path);
    forall k | 0 < k < d
      ensures names[k] !in Moved(path)
    {
      SlotPathsDiffer(path, 0, k);
      SlotPathsDiffer(path, k, DISTINCT_SLOTS);
    }
    CascadeIdles(Moved(path), names, d - 1, 0);
  }

  // The full slot moves to the first shared name, and the current file to slot 1.
  lemma CrowdedRotates(path: Path, n: nat)
    requires n > DISTINCT_SLOTS
    ensures Rotated(Crowded(path), SlotPaths(path, n))
            == map[SlotPath(path, 1) := [0], SlotPath(path, DISTINCT_SLOTS) := [1], path := []]
  {
    DownToTheFullSlot(path, n);
    FullSlotMoves(path, n);
    SlotPathsDiffer(path, 0, DISTINCT_SLOTS);
    SlotPathsDiffer(path, 0, 1);
    SlotPathsDiffer(path, 1, DISTINCT_SLOTS);
    CurrentMoves(path, SlotPath(path, 1), SlotPath(path, DISTINCT_SLOTS));
  }

  lemma CurrentMoves(current: Path, first: Path, shared: Path)
    requires current != first && current != shared && first != shared
    ensures Reopened(Renamed(map[current := [0], shared := [1]], current, first), current)
            == map[first := [0], shared := [1], current := []]
  {
  }

  lemma CrowdedChain(path: Path, n: nat)
    requires n > DISTINCT_SLOTS
    ensures |Chain(Crowded(path), SlotPaths(path, n), n)| == 2
  {
    var names, d: nat := SlotPaths(path, n), DISTINCT_SLOTS - 1;
    forall k | 0 < k <= n && k != d
      ensures names[k] !in Crowded(path)
    {
      OnlyThatSlot(path, k);
    }
    EmptySlotsAddNothing(Crowded(path), names, n, d);
    EmptySlotsAddNothing(Crowded(path), names, d - 1, 0);
    SlotPathsDiffer(path, 0, d);
  }

  // One backup file then stands for two slots, and its content is counted twice.
  lemma SharedSlotsDuplicate(path: Path, n: nat)
    requires n > DISTINCT_SLOTS
    ensures !KeepsTail(path, n)
  {
    var names := SlotPaths(path, n);
    CrowdedRotates(path, n);
    CrowdedChain(path, n);
    var after := Written(Crowded(path), names, 1, [2]);
    SlotPathsDiffer(path, 0, 1);
    SlotPathsDiffer(path, 0, DISTINCT_SLOTS);
    SlotPathsDiffer(path, 1, DISTINCT_SLOTS);
    assert |At(after, names[0])| == 1 && |At(after, names[1])| == 1;
    assert |At(after, names[DISTINCT_SLOTS])| == 1 && names[DISTINCT_SLOTS + 1] == names[DISTINCT_SLOTS];
    LongerChain(after, names, n, DISTINCT_SLOTS + 1);
    LongerChain(after, names, DISTINCT_SLOTS - 1, 1);
    assert |Chain(after, names, n)| > 3;
    assert |Chain(Crowded(path), names, n) + [2]| == 3;
  }

  // Rotation keeps a contiguous tail exactly up to 55248 backups.
  lemma TailKeptIff(path: Path, n: nat)
    requires n > 0
    ensures KeepsTail(path, n) <==> n <= DISTINCT_SLOTS
  {
    if n <= DISTINCT_SLOTS {
      var names := SlotPaths(path, n);
      SlotsDistinctIff(path, n);
      forall files: Files, maxSize: int, p: Content | path in files
        ensures IsSuffix(Chain(Written(files, names, maxSize, p), names, n), Chain(files, names, n) + p)
      {
        WriteKeepsTail(files, names, n, maxSize, Chain(files, names, n), p);
      }
    } else {
      SharedSlotsDuplicate(path, n);
    }
  }
}
