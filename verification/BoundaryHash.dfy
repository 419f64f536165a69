// The boundary signature of a file: SHA-256 over the hashes of its first and last mebibyte.
// The hash is a parameter; where a claim is about contents, it says which strings must not collide.
module BoundaryHash {
  import opened FileSystem

  type Digest = Content

  const MB: nat := 1024 * 1024

  function Prefix(c: Content, n: nat): Content {
    if |c| <= n then c else c[..n]
  }

  function FirstChunk(c: Content): Content {
    Prefix(c, MB)
  }

  // For a size up to one mebibyte the last hash is the first hash again.
  function LastChunk(c: Content, size: int): Content {
    if size <= MB then FirstChunk(c)
    else
      var at := size - MB;
      Prefix(if at <= |c| then c[at..] else [], MB)
  }

  function Signature(sha: Content -> Digest, c: Content, size: int): Digest {
    sha(sha(FirstChunk(c)) + sha(LastChunk(c, size)))
  }

  predicate SameBoundaries(a: Content, b: Content, size: int) {
    FirstChunk(a) == FirstChunk(b) && LastChunk(a, size) == LastChunk(b, size)
  }

  predicate NoCollision(sha: Content -> Digest, x: Content, y: Content) {
    sha(x) == sha(y) ==> x == y
  }

  // Equal signatures mean equal boundaries, unless one of three pairs of strings collides.
  lemma SignatureMeansBoundaries(sha: Content -> Digest, a: Content, b: Content, size: int)
    requires |sha(FirstChunk(a))| == |sha(FirstChunk(b))|
    requires NoCollision(sha, FirstChunk(a), FirstChunk(b))
    requires NoCollision(sha, LastChunk(a, size), LastChunk(b, size))
    requires NoCollision(sha, sha(FirstChunk(a)) + sha(LastChunk(a, size)), sha(FirstChunk(b)) + sha(LastChunk(b, size)))
    ensures Signature(sha, a, size) == Signature(sha, b, size) <==> SameBoundaries(a, b, size)
  {
    var fa, fb := sha(FirstChunk(a)), sha(FirstChunk(b));
    var la, lb := sha(LastChunk(a, size)), sha(LastChunk(b, size));
    if fa + la == fb + lb {
      assert (fa + la)[..|fa|] == fa && (fb + lb)[..|fa|] == fb;
      assert (fa + la)[|fa|..] == la && (fb + lb)[|fa|..] == lb;
    }
  }

  lemma SmallFilesCompareWhole(a: Content, b: Content, size: nat)
    requires |a| == |b| == size <= 2 * MB
    ensures SameBoundaries(a, b, size) <==> a == b
  {
    if SameBoundaries(a, b, size) && size > MB {
      var at := size - MB;
      assert a[at..] == b[at..] && a[..MB] == b[..MB];
      forall i | 0 <= i < size
        ensures a[i] == b[i]
      {
        if i < MB {
          assert a[i] == a[..MB][i] && b[i] == b[..MB][i];
        } else {
          assert a[i] == a[at..][i - at] && b[i] == b[at..][i - at];
        }
      }
    }
  }

  function Zeros(n: nat): Content {
    seq(n, _ => 0)
  }

  lemma LargeFilesMayDiffer(size: nat)
    requires size > 2 * MB
    ensures var a, b := Zeros(size), Zeros(size)[MB := 1];
            |a| == |b| == size && a != b && SameBoundaries(a, b, size)
  {
    var a, b := Zeros(size), Zeros(size)[MB := 1];
    assert a[MB] != b[MB];
    assert a[..MB] == b[..MB] && a[size - MB..] == b[size - MB..];
  }

  ghost predicate BoundariesDecide(size: nat) {
    forall a: Content, b: Content :: |a| == |b| == size && SameBoundaries(a, b, size) ==> a == b
  }

  // The boundaries decide equality of whole files up to two mebibytes and not beyond.
  lemma BoundariesDecideIff(size: nat)
    ensures BoundariesDecide(size) <==> size <= 2 * MB
  {
    if size <= 2 * MB {
      forall a: Content, b: Content | |a| == |b| == size && SameBoundaries(a, b, size)
        ensures a == b
      {
        SmallFilesCompareWhole(a, b, size);
      }
    } else {
      LargeFilesMayDiffer(size);
      assert SameBoundaries(Zeros(size), Zeros(size)[MB := 1], size);
    }
  }
}
