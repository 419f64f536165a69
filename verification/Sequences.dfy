// Sequences of sequences, sequences without repetition, and ASCII lower case.
module Sequences {
  function Flatten<T>(xss: seq<seq<T>>): seq<T> {
    if xss == [] then [] else xss[0] + Flatten(xss[1..])
  }

  lemma {:induction false} FlattenAppend<T>(xss: seq<seq<T>>, last: seq<T>)
    ensures Flatten(xss + [last]) == Flatten(xss) + last
  {
    if xss == [] {
      assert [last][1..] == [];
    } else {
      FlattenAppend(xss[1..], last);
      assert (xss + [last])[1..] == xss[1..] + [last];
    }
  }

  // One more element of a list that is flattened from the left.
  lemma FlattenNext<T>(xss: seq<seq<T>>, i: nat)
    requires i < |xss|
    ensures Flatten(xss[..i + 1]) == Flatten(xss[..i]) + xss[i]
  {
    assert xss[..i + 1] == xss[..i] + [xss[i]];
    FlattenAppend(xss[..i], xss[i]);
  }

  lemma SliceOfSlice<T>(s: seq<T>, d: nat, f: nat, t: nat)
    requires d <= |s| && f <= t <= |s| - d
    ensures s[d..][f..t] == s[f + d..t + d]
  {
  }

  ghost predicate Distinct<T>(xs: seq<T>) {
    forall i, j :: 0 <= i < j < |xs| ==> xs[i] != xs[j]
  }

  function LowerChar(c: char): char {
    if 'A' <= c <= 'Z' then c + ('a' - 'A') else c
  }

  function Lower(s: string): string {
    seq(|s|, i requires 0 <= i < |s| => LowerChar(s[i]))
  }
}
