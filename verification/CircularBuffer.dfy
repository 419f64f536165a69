// The bounded buffer that keeps the last bytes of a process's output.
module CircularBuffer {
  import opened Sequences
  import opened FileSystem

  const DEFAULT_CAPACITY: nat := 64 * 1024

  // The last n elements of a stream, or all of it.
  function Last(s: Content, n: nat): (t: Content)
    ensures |t| == if |s| < n then |s| else n
    ensures |t| <= |s| && t == s[|s| - |t|..]
  {
    if |s| <= n then s else s[|s| - n..]
  }

  // Keeping the last bytes as one goes loses nothing against keeping everything.
  lemma LastOfLast(s: Content, p: Content, n: nat)
    ensures Last(Last(s, n) + p, n) == Last(s + p, n)
  {
    var a, b := Last(s, n) + p, s + p;
    var d := |s| - |Last(s, n)|;
    assert b[d..] == a;
    assert |b| - |a| == d;
  }

  // The tail of a concatenation that is at least n long.
  lemma TailOfConcat(kept: Content, p: Content, n: nat)
    requires n <= |kept| + |p|
    ensures |p| >= n ==> Last(kept + p, n) == p[|p| - n..]
    ensures |p| < n ==> Last(kept + p, n) == kept[|kept| + |p| - n..] + p
  {
  }

  class Buffer {
    const buf: array<byte>
    const capacity: nat
    var size: nat
    // every byte ever written
    ghost var stream: Content

    ghost predicate Valid()
      reads this, buf
    {
      && 0 < capacity == buf.Length
      && size <= capacity
      && buf[..size] == Last(stream, capacity)
    }

    constructor (capacity: int)
      ensures Valid() && fresh(buf) && stream == []
      ensures this.capacity == (if capacity <= 0 then DEFAULT_CAPACITY else capacity)
    {
      var c: nat := if capacity <= 0 then DEFAULT_CAPACITY else capacity;
      this.capacity := c;
      buf := new byte[c];
      size := 0;
      stream := [];
    }

    // copy(buf[at:], p)
    method CopyIn(p: Content, at: nat)
      requires at + |p| <= buf.Length
      modifies buf
      ensures buf[..] == old(buf[..at]) + p + old(buf[at + |p|..])
    {
      for i := 0 to |p|
        invariant buf[..] == old(buf[..at]) + p[..i] + old(buf[at + i..])
      {
        buf[at + i] := p[i];
        assert p[..i + 1] == p[..i] + [p[i]];
      }
      assert p[..|p|] == p;
    }

    // copy(buf, buf[from:to]): source and target overlap, and the forward order keeps it right.
    method ShiftDown(from: nat, to: nat)
      requires from <= to <= buf.Length
      modifies buf
      ensures buf[..to - from] == old(buf[from..to])
      ensures buf[to - from..] == old(buf[to - from..])
    {
      var n := to - from;
      for i := 0 to n
        invariant forall k :: 0 <= k < i ==> buf[k] == old(buf[from + k])
        invariant forall k :: i <= k < buf.Length ==> buf[k] == old(buf[k])
      {
        buf[i] := buf[from + i];
      }
    }

    // A write as long as the buffer replaces everything.
    method Replace(p: Content)
      requires size <= capacity == buf.Length && |p| >= capacity > 0
      modifies this`size, buf
      ensures size <= capacity && buf[..size] == Last(old(buf[..size]) + p, capacity)
    {
      TailOfConcat(buf[..size], p, capacity);
      var tail := p[|p| - capacity..];
      assert buf[..0] == [] && buf[0 + |tail|..] == [];
      CopyIn(tail, 0);
      assert buf[..] == [] + tail + [] == tail;
      size := capacity;
      assert buf[..size] == buf[..];
    }

    // A write that fits goes behind what is there.
    method Append(p: Content)
      requires size + |p| <= capacity == buf.Length
      modifies this`size, buf
      ensures size <= capacity && buf[..size] == Last(old(buf[..size]) + p, capacity)
    {
      CopyIn(p, size);
      size := size + |p|;
    }

    // Anything between pushes the oldest bytes out.
    method PushOut(p: Content, overflow: nat)
      requires size <= capacity == buf.Length && |p| < capacity && overflow == size + |p| - capacity
      modifies this`size, buf
      ensures size <= capacity && buf[..size] == Last(old(buf[..size]) + p, capacity)
    {
      TailOfConcat(buf[..size], p, capacity);
      ShiftDown(overflow, size);
      CopyIn(p, size - overflow);
      size := capacity;
      assert buf[..size] == old(buf[overflow..size]) + p;
      assert old(buf[..size])[overflow..] == old(buf[overflow..size]);
    }

    method Write(p: Content) returns (n: nat)
      requires Valid()
      modifies this, buf
      ensures Valid() && n == |p|
      ensures stream == old(stream) + p
    {
      n := |p|;
      LastOfLast(stream, p, capacity);
      if n >= capacity {
        Replace(p);
      } else {
        var available := capacity - size;
        if n <= available {
          Append(p);
        } else {
          PushOut(p, n - available);
        }
      }
      stream := stream + p;
    }

    method Bytes() returns (res: Content)
      requires Valid()
      ensures res == Last(stream, capacity)
    {
      res := buf[..size];
    }
  }

  // Any sequence of writes, whatever their lengths, leaves the tail of everything written.
  method WriteAll(capacity: int, writes: seq<Content>) returns (tail: Content)
    ensures tail == Last(Flatten(writes), if capacity <= 0 then DEFAULT_CAPACITY else capacity)
  {
    var b := new Buffer(capacity);
    for i := 0 to |writes|
      invariant b.Valid() && fresh(b) && fresh(b.buf)
      invariant b.stream == Flatten(writes[..i])
    {
      FlattenNext(writes, i);
      var _ := b.Write(writes[i]);
    }
    assert writes[..|writes|] == writes;
    tail := b.Bytes();
  }
}
