// Splitting a process's stderr into lines as chunks of it arrive.
module LineSplitter {
  import opened Sequences
  import opened FileSystem

  const LF: byte := 10
  const CR: byte := 13

  predicate IsBreak(b: byte) { b == LF || b == CR }

  lemma BreaksAreLfAndCr(b: byte)
    ensures IsBreak(b) <==> b == 10 || b == 13
  {
  }

  // --- Reference: the maximal runs without a line break, empty ones left out ---

  // First line break at or after position `from`.
  function NextBreak(s: Content, from: nat): (i: nat)
    requires from <= |s|
    ensures from <= i <= |s|
    ensures i < |s| ==> IsBreak(s[i])
    decreases |s| - from
  {
    if from == |s| || IsBreak(s[from]) then from else NextBreak(s, from + 1)
  }

  lemma {:induction false} NoneBefore(s: Content, from: nat)
    requires from <= |s|
    ensures forall k :: from <= k < NextBreak(s, from) ==> !IsBreak(s[k])
    decreases |s| - from
  {
    if from < |s| && !IsBreak(s[from]) {
      NoneBefore(s, from + 1);
    }
  }

  function Head(s: Content, i: nat): seq<Content>
    requires i <= |s|
  {
    if i == 0 then [] else [s[..i]]
  }

  function Lines(s: Content): seq<Content>
    decreases |s|
  {
    if s == [] then []
    else if NextBreak(s, 0) == |s| then [s]
    else Head(s, NextBreak(s, 0)) + Lines(s[NextBreak(s, 0) + 1..])
  }

  // What Lines means: the lines in order, put back between breaks, and nothing else.
  ghost predicate IsLine(s: Content, from: int, to: int) {
    && 0 <= from < to <= |s|
    && (forall k :: from <= k < to ==> !IsBreak(s[k]))
    && (from == 0 || IsBreak(s[from - 1]))
    && (to == |s| || IsBreak(s[to]))
  }

  // --- The incremental form ---

  datatype Split = Split(lines: seq<Content>, partial: Content)

  function Feed(st: Split, b: byte): Split {
    if IsBreak(b) then
      if |st.partial| > 0 then Split(st.lines + [st.partial], []) else st
    else Split(st.lines, st.partial + [b])
  }

  function FeedAll(st: Split, s: Content): Split
    decreases |s|
  {
    if s == [] then st else FeedAll(Feed(st, s[0]), s[1..])
  }

  function Finish(st: Split): seq<Content> {
    if |st.partial| > 0 then st.lines + [st.partial] else st.lines
  }

  lemma {:induction false} FeedAllAppend(st: Split, a: Content, b: Content)
    ensures FeedAll(st, a + b) == FeedAll(FeedAll(st, a), b)
    decreases |a|
  {
    if a == [] {
      assert a + b == b;
    } else {
      assert (a + b)[0] == a[0] && (a + b)[1..] == a[1..] + b;
      FeedAllAppend(Feed(st, a[0]), a[1..], b);
    }
  }

  lemma {:induction false} FeedRun(st: Split, run: Content)
    requires forall k :: 0 <= k < |run| ==> !IsBreak(run[k])
    ensures FeedAll(st, run) == Split(st.lines, st.partial + run)
    decreases |run|
  {
    if run == [] {
      assert st.partial + run == st.partial;
    } else {
      FeedRun(Feed(st, run[0]), run[1..]);
      assert st.partial + [run[0]] + run[1..] == st.partial + run;
    }
  }

  // What the splitter holds after the first run and the break behind it.
  lemma FeedFirstLine(lines: seq<Content>, s: Content, i: nat)
    requires i == NextBreak(s, 0) && i < |s|
    ensures FeedAll(Split(lines, []), s)
            == FeedAll(Split(if i == 0 then lines else lines + [s[..i]], []), s[i + 1..])
  {
    assert s == s[..i] + s[i..];
    FeedAllAppend(Split(lines, []), s[..i], s[i..]);
    NoneBefore(s, 0);
    FeedRun(Split(lines, []), s[..i]);
    assert [] + s[..i] == s[..i];
    assert s[i..][0] == s[i] && s[i..][1..] == s[i + 1..];
  }

  lemma FeedLastLine(lines: seq<Content>, s: Content)
    requires s != [] && NextBreak(s, 0) == |s|
    ensures Finish(FeedAll(Split(lines, []), s)) == lines + [s] && Lines(s) == [s]
  {
    NoneBefore(s, 0);
    FeedRun(Split(lines, []), s);
    assert [] + s == s;
  }

  lemma LinesUnfold(s: Content)
    requires NextBreak(s, 0) < |s|
    ensures Lines(s) == Head(s, NextBreak(s, 0)) + Lines(s[NextBreak(s, 0) + 1..])
  {
  }

  lemma Associative(a: seq<Content>, b: seq<Content>, c: seq<Content>)
    ensures (a + b) + c == a + (b + c)
  {
  }

  // Fed byte by byte, the splitter yields exactly the reference lines.
  lemma {:induction false} FeedYieldsLines(lines: seq<Content>, s: Content)
    ensures Finish(FeedAll(Split(lines, []), s)) == lines + Lines(s)
    decreases |s|
  {
    if s == [] {
      assert lines + [] == lines;
    } else if NextBreak(s, 0) == |s| {
      FeedLastLine(lines, s);
    } else {
      var i := NextBreak(s, 0);
      FeedFirstLine(lines, s, i);
      FeedYieldsLines(lines + Head(s, i), s[i + 1..]);
      LinesUnfold(s);
      assert lines + [] == lines;
      Associative(lines, Head(s, i), Lines(s[i + 1..]));
    }
  }

  lemma FirstOrLater(s: Content, line: Content)
    requires line in Lines(s)
    ensures var i := NextBreak(s, 0);
            (i > 0 && line == s[..i]) || (i < |s| && line in Lines(s[i + 1..]))
  {
    if NextBreak(s, 0) == |s| {
      FeedLastLine([], s);
    } else {
      LinesUnfold(s);
    }
  }

  // Moving a run between a stream and what follows one of its breaks.
  lemma RunOfRest(s: Content, d: nat, f: int, t: int)
    requires 0 < d <= |s| && IsBreak(s[d - 1]) && IsLine(s[d..], f, t)
    ensures IsLine(s, f + d, t + d) && s[f + d..t + d] == s[d..][f..t]
  {
    var rest := s[d..];
    assert forall k :: 0 <= k < |rest| ==> rest[k] == s[k + d];
    forall k | f + d <= k < t + d
      ensures !IsBreak(s[k])
    {
      assert s[k] == rest[k - d];
    }
    SliceOfSlice(s, d, f, t);
  }

  // Every line is a maximal non-empty run ...
  lemma {:induction false} LinesAreRuns(s: Content, line: Content)
    requires line in Lines(s)
    ensures exists f, t :: IsLine(s, f, t) && s[f..t] == line
    decreases |s|
  {
    var i := NextBreak(s, 0);
    FirstOrLater(s, line);
    if i > 0 && line == s[..i] {
      NoneBefore(s, 0);
      assert IsLine(s, 0, i) && s[0..i] == line;
    } else {
      LinesAreRuns(s[i + 1..], line);
      var f, t :| IsLine(s[i + 1..], f, t) && s[i + 1..][f..t] == line;
      RunOfRest(s, i + 1, f, t);
    }
  }

  lemma FirstRun(s: Content, f: int, t: int)
    requires IsLine(s, f, t) && f <= NextBreak(s, 0)
    ensures f == 0 && t == NextBreak(s, 0)
  {
    NoneBefore(s, 0);
  }

  lemma FirstRunIsLine(s: Content, f: int, t: int)
    requires IsLine(s, f, t) && f <= NextBreak(s, 0)
    ensures s[f..t] in Lines(s)
  {
    FirstRun(s, f, t);
    assert s[f..t] == s[..t];
    if t == |s| {
      assert s[..t] == s;
      FeedLastLine([], s);
    } else {
      LinesUnfold(s);
      assert Lines(s)[0] == s[..t];
    }
  }

  lemma LaterLinesIn(s: Content, line: Content)
    requires NextBreak(s, 0) < |s| && line in Lines(s[NextBreak(s, 0) + 1..])
    ensures line in Lines(s)
  {
    LinesUnfold(s);
  }

  lemma RunInRest(s: Content, d: nat, f: int, t: int)
    requires IsLine(s, f, t) && d <= f
    ensures IsLine(s[d..], f - d, t - d) && s[d..][f - d..t - d] == s[f..t]
  {
    var rest := s[d..];
    assert forall k :: 0 <= k < |rest| ==> rest[k] == s[k + d];
    SliceOfSlice(s, d, f - d, t - d);
  }

  // ... and every such run is one of the lines.
  lemma {:induction false} RunsAreLines(s: Content, f: int, t: int)
    requires IsLine(s, f, t)
    ensures s[f..t] in Lines(s)
    decreases |s|, 1
  {
    if f <= NextBreak(s, 0) {
      FirstRunIsLine(s, f, t);
    } else {
      LaterRunIsLine(s, NextBreak(s, 0) + 1, f, t);
    }
  }

  lemma {:induction false} LaterRunIsLine(s: Content, d: nat, f: int, t: int)
    requires IsLine(s, f, t) && d == NextBreak(s, 0) + 1 <= f
    ensures s[f..t] in Lines(s)
    decreases |s|, 0
  {
    var rest, from, to := s[d..], f - d, t - d;
    RunInRest(s, d, f, t);
    RunsAreLines(rest, from, to);
    assert rest[from..to] == s[f..t];
    LaterLinesIn(s, s[f..t]);
  }

  function WithoutBreaks(s: Content): Content {
    if s == [] then []
    else if IsBreak(s[0]) then WithoutBreaks(s[1..])
    else [s[0]] + WithoutBreaks(s[1..])
  }

  lemma {:induction false} FilterUnfold(s: Content, i: nat)
    requires i < |s| && IsBreak(s[i]) && forall k :: 0 <= k < i ==> !IsBreak(s[k])
    ensures WithoutBreaks(s) == s[..i] + WithoutBreaks(s[i + 1..])
  {
    if i == 0 {
      assert s[..0] + WithoutBreaks(s[1..]) == WithoutBreaks(s[1..]);
    } else {
      var rest := s[1..];
      FilterUnfold(rest, i - 1);
      assert rest[i..] == s[i + 1..] && s[..i] == [s[0]] + rest[..i - 1];
      var tail := WithoutBreaks(rest[i..]);
      assert [s[0]] + (rest[..i - 1] + tail) == ([s[0]] + rest[..i - 1]) + tail;
    }
  }

  lemma {:induction false} NothingToFilter(run: Content)
    requires forall k :: 0 <= k < |run| ==> !IsBreak(run[k])
    ensures WithoutBreaks(run) == run
  {
    if run != [] {
      NothingToFilter(run[1..]);
      assert [run[0]] + run[1..] == run;
    }
  }

  lemma FlattenUnfold(s: Content)
    requires NextBreak(s, 0) < |s|
    ensures Flatten(Lines(s)) == s[..NextBreak(s, 0)] + Flatten(Lines(s[NextBreak(s, 0) + 1..]))
  {
    var i := NextBreak(s, 0);
    var rest := Lines(s[i + 1..]);
    LinesUnfold(s);
    if i == 0 {
      assert Lines(s) == rest && s[..i] + Flatten(rest) == Flatten(rest);
    } else {
      assert Lines(s)[0] == s[..i] && Lines(s)[1..] == rest;
    }
  }

  lemma OneLine(s: Content)
    requires s != [] && NextBreak(s, 0) == |s|
    ensures Flatten(Lines(s)) == s == WithoutBreaks(s)
  {
    FeedLastLine([], s);
    assert [s][0] == s && [s][1..] == [];
    assert Flatten([s]) == s + Flatten([]) == s;
    NoneBefore(s, 0);
    NothingToFilter(s);
  }

  // In order and complete: put end to end, the lines are the stream without its line breaks.
  lemma {:induction false} LinesLoseOnlyBreaks(s: Content)
    ensures Flatten(Lines(s)) == WithoutBreaks(s)
    decreases |s|
  {
    if s != [] {
      if NextBreak(s, 0) == |s| {
        OneLine(s);
      } else {
        LinesLoseOnlyBreaks(s[NextBreak(s, 0) + 1..]);
        FlattenUnfold(s);
        NoneBefore(s, 0);
        FilterUnfold(s, NextBreak(s, 0));
      }
    }
  }

  // The reader goroutine: `calls` are the lines its callback is given, in order; with no callback
  // there are none.
  method SplitChunks(chunks: seq<Content>, hasCallback: bool) returns (calls: seq<Content>)
    ensures calls == if hasCallback then Lines(Flatten(chunks)) else []
  {
    var lineBuf: Content := [];
    calls := [];
    for c := 0 to |chunks|
      invariant if hasCallback then Split(calls, lineBuf) == FeedAll(Split([], []), Flatten(chunks[..c])) else calls == []
    {
      var chunk := chunks[c];
      FlattenNext(chunks, c);
      assert Flatten(chunks[..c]) + chunk[..0] == Flatten(chunks[..c]);
      for i := 0 to |chunk|
        invariant if hasCallback
                  then Split(calls, lineBuf) == FeedAll(Split([], []), Flatten(chunks[..c]) + chunk[..i])
                  else calls == []
      {
        var b := chunk[i];
        FeedOne(Flatten(chunks[..c]), chunk, i);
        if b == LF || b == CR {
          if |lineBuf| > 0 && hasCallback {
            calls := calls + [lineBuf];
            lineBuf := [];
          }
        } else {
          lineBuf := lineBuf + [b];
        }
      }
      assert chunk[..|chunk|] == chunk;
    }
    assert chunks[..|chunks|] == chunks;
    FeedYieldsLines([], Flatten(chunks));
    assert [] + Lines(Flatten(chunks)) == Lines(Flatten(chunks));
    if |lineBuf| > 0 && hasCallback {
      calls := calls + [lineBuf];
    }
  }

  lemma FeedOne(before: Content, chunk: Content, i: nat)
    requires i < |chunk|
    ensures FeedAll(Split([], []), before + chunk[..i + 1])
            == Feed(FeedAll(Split([], []), before + chunk[..i]), chunk[i])
  {
    var one := [chunk[i]];
    FeedAllAppend(Split([], []), before + chunk[..i], one);
    assert before + chunk[..i] + one == before + chunk[..i + 1];
    assert one[1..] == [];
  }
}
