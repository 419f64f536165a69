// The filesystem package's duplicate index: sizes first, signatures only from the second file of
// a size on, with the first one hashed late.
module DedupeIndex {
  import opened Wrappers
  import opened FileSystem
  import opened BoundaryHash

  // Signature of a file, or None when it cannot be read; stable over the life of the index.
  type Signatures = (Path, int) -> Option<Digest>

  datatype Call = Call(path: Path, size: int)

  datatype Report = NotDuplicate | DuplicateOf(path: Path) | Unreadable

  function SigOf(sig: Signatures, c: Call): Option<Digest> {
    sig(c.path, c.size)
  }

  // --- Naive search through all earlier calls ---

  predicate Matches(sig: Signatures, history: seq<Call>, size: int, d: Digest, j: int) {
    0 <= j < |history| && history[j].size == size && SigOf(sig, history[j]) == Some(d)
  }

  predicate SizeSeen(history: seq<Call>, size: int) {
    exists j :: 0 <= j < |history| && history[j].size == size
  }

  // The earliest call of each signature in one size class.
  function FirstSeen(sig: Signatures, history: seq<Call>, size: int): map<Digest, Path>
    decreases |history|
  {
    if history == [] then map[]
    else
      var m, c := FirstSeen(sig, history[..|history| - 1], size), history[|history| - 1];
      match SigOf(sig, c)
      case None => m
      case Some(d) => if c.size == size && d !in m then m[d := c.path] else m
  }

  lemma {:induction false} FirstSeenIsFirst(sig: Signatures, history: seq<Call>, size: int, d: Digest)
    ensures d in FirstSeen(sig, history, size) <==> exists j :: Matches(sig, history, size, d, j)
    ensures d in FirstSeen(sig, history, size) ==>
              exists j :: Matches(sig, history, size, d, j) && FirstSeen(sig, history, size)[d] == history[j].path
                          && forall i :: 0 <= i < j ==> !Matches(sig, history, size, d, i)
    decreases |history|
  {
    if history != [] {
      var n := |history| - 1;
      var before := history[..n];
      FirstSeenIsFirst(sig, before, size, d);
      forall i | 0 <= i < n
        ensures Matches(sig, before, size, d, i) <==> Matches(sig, history, size, d, i)
      {
      }
      if Matches(sig, history, size, d, n) && d !in FirstSeen(sig, before, size) {
        assert FirstSeen(sig, history, size)[d] == history[n].path;
      } else if d in FirstSeen(sig, before, size) {
        var j :| Matches(sig, before, size, d, j) && FirstSeen(sig, before, size)[d] == before[j].path
                 && forall i :: 0 <= i < j ==> !Matches(sig, before, size, d, i);
        assert Matches(sig, history, size, d, j);
      }
    }
  }

  // What the index answers: a first file of its size is never read.
  function Answer(sig: Signatures, history: seq<Call>, c: Call): Report {
    if !SizeSeen(history, c.size) then NotDuplicate
    else
      match SigOf(sig, c)
      case None => Unreadable
      case Some(d) =>
        var m := FirstSeen(sig, history, c.size);
        if d in m then DuplicateOf(m[d]) else NotDuplicate
  }

  // Over every call sequence on stable files: a readable file is a duplicate exactly when an
  // earlier call had its size and signature, and the path reported is that of the first such call.
  lemma AnswerIsNaiveSearch(sig: Signatures, history: seq<Call>, c: Call, d: Digest)
    requires SigOf(sig, c) == Some(d)
    ensures Answer(sig, history, c).DuplicateOf? <==> exists j :: Matches(sig, history, c.size, d, j)
    ensures forall j :: Matches(sig, history, c.size, d, j)
                        && (forall i :: 0 <= i < j ==> !Matches(sig, history, c.size, d, i)) ==>
                        Answer(sig, history, c) == DuplicateOf(history[j].path)
  {
    FirstSeenIsFirst(sig, history, c.size, d);
    forall j | Matches(sig, history, c.size, d, j)
      ensures SizeSeen(history, c.size) && Answer(sig, history, c).DuplicateOf?
      ensures (forall i :: 0 <= i < j ==> !Matches(sig, history, c.size, d, i)) ==>
                Answer(sig, history, c) == DuplicateOf(history[j].path)
    {
      assert history[j].size == c.size;
    }
  }

  // The three answers by the files alone: one is read only when an earlier call had its size.
  lemma AnswerInWords(sig: Signatures, history: seq<Call>, c: Call)
    ensures Answer(sig, history, c).Unreadable? <==>
            sig(c.path, c.size).None? && exists j :: 0 <= j < |history| && history[j].size == c.size
    ensures Answer(sig, history, c).DuplicateOf? <==>
            && sig(c.path, c.size).Some?
            && exists j :: 0 <= j < |history| && history[j].size == c.size
                           && sig(history[j].path, c.size) == sig(c.path, c.size)
  {
    if sig(c.path, c.size).Some? {
      var d := sig(c.path, c.size).value;
      AnswerIsNaiveSearch(sig, history, c, d);
      forall j | 0 <= j < |history|
        ensures Matches(sig, history, c.size, d, j) <==>
                history[j].size == c.size && sig(history[j].path, c.size) == Some(d)
      {
      }
    }
  }

  // Signatures of a set of files that does not change.
  function SignaturesOf(sha: Content -> Digest, files: Files): Signatures {
    (path, size) => if path in files then Some(Signature(sha, files[path], size)) else None
  }

  // The strings hashed for two files of one size do not collide.
  predicate NoCollisions(sha: Content -> Digest, a: Content, b: Content, size: int) {
    && |sha(FirstChunk(a))| == |sha(FirstChunk(b))|
    && NoCollision(sha, FirstChunk(a), FirstChunk(b))
    && NoCollision(sha, LastChunk(a, size), LastChunk(b, size))
    && NoCollision(sha, sha(FirstChunk(a)) + sha(LastChunk(a, size)), sha(FirstChunk(b)) + sha(LastChunk(b, size)))
  }

  ghost predicate TrueSizes(files: Files, history: seq<Call>) {
    forall j :: 0 <= j < |history| ==> history[j].path in files && history[j].size == |files[history[j].path]|
  }

  // What a report means for the user: up to two mebibytes, a duplicate is a file whose whole
  // content was seen before.
  lemma DuplicateMeansSameContent(sha: Content -> Digest, files: Files, history: seq<Call>, c: Call)
    requires TrueSizes(files, history) && c.path in files && c.size == |files[c.path]| <= 2 * MB
    requires forall p, q :: p in files && q in files ==> NoCollisions(sha, files[p], files[q], c.size)
    ensures Answer(SignaturesOf(sha, files), history, c).DuplicateOf? <==>
            exists j :: 0 <= j < |history| && files[history[j].path] == files[c.path]
  {
    var sig := SignaturesOf(sha, files);
    var d := Signature(sha, files[c.path], c.size);
    AnswerIsNaiveSearch(sig, history, c, d);
    forall j | 0 <= j < |history|
      ensures Matches(sig, history, c.size, d, j) <==> files[history[j].path] == files[c.path]
    {
      if history[j].size == c.size {
        SignatureMeansBoundaries(sha, files[history[j].path], files[c.path], c.size);
        SmallFilesCompareWhole(files[history[j].path], files[c.path], c.size);
      }
    }
  }

  // The paths kept for one size class: those that were not reported as anything.
  function Kept(sig: Signatures, history: seq<Call>, size: int): seq<Path>
    decreases |history|
  {
    if history == [] then []
    else
      var before, c := history[..|history| - 1], history[|history| - 1];
      Kept(sig, before, size)
      + (if c.size == size && Answer(sig, before, c).NotDuplicate? then [c.path] else [])
  }

  lemma {:induction false} KeptIffSeen(sig: Signatures, history: seq<Call>, size: int)
    ensures Kept(sig, history, size) == [] <==> !SizeSeen(history, size)
    decreases |history|
  {
    if history != [] {
      var n := |history| - 1;
      var before := history[..n];
      KeptIffSeen(sig, before, size);
      assert SizeSeen(history, size) <==> SizeSeen(before, size) || history[n].size == size by {
        assert forall i :: 0 <= i < n ==> before[i] == history[i];
        if history[n].size == size {
          assert 0 <= n < |history| && history[n].size == size;
        }
      }
    }
  }

  // Within a size class no two kept files share a signature.
  lemma {:induction false} KeptAreDistinct(sig: Signatures, history: seq<Call>, size: int)
    ensures forall i, j :: 0 <= i < j < |Kept(sig, history, size)| && sig(Kept(sig, history, size)[i], size).Some? ==>
              sig(Kept(sig, history, size)[i], size) != sig(Kept(sig, history, size)[j], size)
    ensures forall i :: 0 <= i < |Kept(sig, history, size)| && sig(Kept(sig, history, size)[i], size).Some? ==>
              sig(Kept(sig, history, size)[i], size).value in FirstSeen(sig, history, size)
    decreases |history|
  {
    if history != [] {
      var n := |history| - 1;
      KeptAreDistinct(sig, history[..n], size);
      KeptIffSeen(sig, history[..n], size);
    }
  }

  // --- The index ---

  class Index {
    const sig: Signatures
    var sizeIndex: map<int, seq<Path>>
    var sigIndex: map<int, map<Digest, Path>>
    ghost var history: seq<Call>

    // Signatures are back-filled at the first size collision: until then a class holds one path.
    ghost predicate ClassOk(size: int)
      reads this
    {
      && (size in sizeIndex <==> SizeSeen(history, size))
      && (size in sizeIndex ==> sizeIndex[size] == Kept(sig, history, size))
      && (size in sigIndex ==> size in sizeIndex && sigIndex[size] == FirstSeen(sig, history, size))
      && (size in sizeIndex && size !in sigIndex ==>
            && |sizeIndex[size]| == 1
            && FirstSeen(sig, history, size) == BackFill(sig, size, sizeIndex[size], 1))
    }

    ghost predicate Valid()
      reads this
    {
      forall size :: ClassOk(size)
    }

    constructor (sig: Signatures)
      ensures Valid() && history == [] && this.sig == sig
    {
      this.sig := sig;
      sizeIndex, sigIndex, history := map[], map[], [];
    }

    method CheckAndRecord(path: Path, size: int) returns (report: Report)
      requires Valid()
      modifies this
      ensures Valid()
      ensures history == old(history) + [Call(path, size)]
      ensures report == Answer(sig, old(history), Call(path, size))
    {
      ghost var c := Call(path, size);
      assert ClassOk(size);
      Extend(sig, history, c);
      if size !in sizeIndex {
        sizeIndex := sizeIndex[size := [path]];
        history := history + [c];
        report := NotDuplicate;
        KeptIffSeen(sig, old(history), size);
        NothingSeen(sig, old(history), size);
        assert BackFill(sig, size, [path], 0) == map[];
        assert BackFill(sig, size, [path], 1) == FirstSeen(sig, history, size);
        assert Kept(sig, history, size) == [path];
        forall s
          ensures ClassOk(s)
        {
          assert old(ClassOk(s));
        }
        return;
      }
      var mine := sig(path, size);
      if mine.None? {
        history := history + [c];
        forall s
          ensures ClassOk(s)
        {
          assert old(ClassOk(s));
        }
        return Unreadable;
      }
      var sizeSigs := map[];
      if size in sigIndex {
        sizeSigs := sigIndex[size];
      } else {
        var prior := sizeIndex[size];
        for i := 0 to |prior|
          invariant sizeSigs == BackFill(sig, size, prior, i)
        {
          var other := sig(prior[i], size);
          if other.Some? {
            sizeSigs := sizeSigs[other.value := prior[i]];
          }
        }
      }
      if mine.value in sizeSigs {
        report := DuplicateOf(sizeSigs[mine.value]);
      } else {
        report := NotDuplicate;
        sizeSigs := sizeSigs[mine.value := path];
        sizeIndex := sizeIndex[size := sizeIndex[size] + [path]];
      }
      sigIndex := sigIndex[size := sizeSigs];
      history := history + [c];
      forall s
        ensures ClassOk(s)
      {
        assert old(ClassOk(s));
      }
    }
  }

  // The signatures of the first n paths, later ones winning.
  function BackFill(sig: Signatures, size: int, paths: seq<Path>, n: nat): map<Digest, Path>
    requires n <= |paths|
  {
    if n == 0 then map[]
    else
      var m := BackFill(sig, size, paths, n - 1);
      match sig(paths[n - 1], size)
      case None => m
      case Some(d) => m[d := paths[n - 1]]
  }

  // One call more, seen from every size class.
  lemma Extend(sig: Signatures, history: seq<Call>, c: Call)
    ensures forall size {:trigger SizeSeen(history + [c], size)} ::
              SizeSeen(history + [c], size) <==> SizeSeen(history, size) || c.size == size
    ensures forall size {:trigger FirstSeen(sig, history + [c], size)} ::
              FirstSeen(sig, history + [c], size) ==
              (var m := FirstSeen(sig, history, size);
               match SigOf(sig, c)
               case None => m
               case Some(d) => if c.size == size && d !in m then m[d := c.path] else m)
    ensures forall size {:trigger Kept(sig, history + [c], size)} ::
              Kept(sig, history + [c], size) == Kept(sig, history, size)
              + (if c.size == size && Answer(sig, history, c).NotDuplicate? then [c.path] else [])
  {
    var longer := history + [c];
    assert longer[..|history|] == history;
    forall size
      ensures SizeSeen(longer, size) <==> SizeSeen(history, size) || c.size == size
    {
      assert longer[|history|] == c;
      assert forall j :: 0 <= j < |history| ==> longer[j] == history[j];
    }
  }

  lemma {:induction false} NothingSeen(sig: Signatures, history: seq<Call>, size: int)
    requires !SizeSeen(history, size)
    ensures FirstSeen(sig, history, size) == map[]
    decreases |history|
  {
    if history != [] {
      var before := history[..|history| - 1];
      assert !SizeSeen(before, size) by {
        assert forall j :: 0 <= j < |before| ==> before[j] == history[j];
      }
      NothingSeen(sig, before, size);
    }
  }
}
