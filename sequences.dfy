/** Sequence relations shared by the chart-library modules. */
module Sequences {

  /** `sub` is `s` with some elements left out, the rest in their original order. */
  predicate IsSubsequence<T(==)>(sub: seq<T>, s: seq<T>)
    decreases |s|
  {
    sub == [] || (s != [] && ((sub[0] == s[0] && IsSubsequence(sub[1..], s[1..])) || IsSubsequence(sub, s[1..])))
  }

  lemma {:induction false} SubsequenceReflexive<T>(s: seq<T>)
    ensures IsSubsequence(s, s)
    decreases |s|
  {
    if s != [] { SubsequenceReflexive(s[1..]); }
  }

  lemma {:induction false} DropKeepsSubsequence<T>(s: seq<T>, i: nat)
    requires i < |s|
    ensures IsSubsequence(s[..i] + s[i + 1..], s)
    decreases i
  {
    if i == 0 {
      assert s[..0] + s[1..] == s[1..];
      SubsequenceReflexive(s[1..]);
    } else {
      DropKeepsSubsequence(s[1..], i - 1);
      assert (s[..i] + s[i + 1..])[1..] == s[1..][..i - 1] + s[1..][i..];
    }
  }

  lemma {:induction false} SubsequenceTransitive<T>(a: seq<T>, b: seq<T>, c: seq<T>)
    requires IsSubsequence(a, b) && IsSubsequence(b, c)
    ensures IsSubsequence(a, c)
    decreases |c|
  {
    if a != [] {
      if IsSubsequence(b, c[1..]) {
        SubsequenceTransitive(a, b, c[1..]);
      } else if IsSubsequence(a, b[1..]) {
        SubsequenceTransitive(a, b[1..], c[1..]);
      } else {
        SubsequenceTransitive(a[1..], b[1..], c[1..]);
      }
    }
  }

  /** Appending the same element to both sides, kept or dropped, keeps the relation. */
  lemma {:induction false} SubsequenceExtend<T>(sub: seq<T>, s: seq<T>, x: T, keep: bool)
    requires IsSubsequence(sub, s)
    ensures IsSubsequence(sub + (if keep then [x] else []), s + [x])
    decreases |s|
  {
    var sub' := sub + (if keep then [x] else []);
    if s == [] {
      assert sub == [];
      if keep { assert sub'[1..] == []; }
    } else if sub == [] {
      if keep {
        assert sub' == [x];
        SubsequenceExtend(sub, s[1..], x, keep);
        assert (s + [x])[1..] == s[1..] + [x];
      }
    } else if sub[0] == s[0] && IsSubsequence(sub[1..], s[1..]) {
      SubsequenceExtend(sub[1..], s[1..], x, keep);
      assert sub'[1..] == sub[1..] + (if keep then [x] else []);
      assert (s + [x])[1..] == s[1..] + [x];
    } else {
      SubsequenceExtend(sub, s[1..], x, keep);
      assert (s + [x])[1..] == s[1..] + [x];
    }
  }
}
