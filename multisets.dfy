/** Facts about the elements of a sequence that the permutation proofs share. */
module Multisets {

  /** Where `x` sits in `b`, and what is left of `b` without it. */
  lemma SplitAround<T>(x: T, b: seq<T>) returns (j: nat)
    requires x in multiset(b)
    ensures j < |b| && b[j] == x && b == b[..j] + [x] + b[j + 1..]
    ensures multiset(b[..j] + b[j + 1..]) == multiset(b) - multiset{x}
  {
    j :| 0 <= j < |b| && b[j] == x;
    assert b == b[..j] + [b[j]] + b[j + 1..];
  }

  /** The head of `a` and the multiset of the rest. */
  lemma TakeHead<T>(a: seq<T>)
    requires |a| > 0
    ensures a == [a[0]] + a[1..]
    ensures a[0] in multiset(a)
    ensures multiset(a[1..]) == multiset(a) - multiset{a[0]}
  {
    assert a == [a[0]] + a[1..];
  }

  /** In a sequence without repetitions every element occurs once. */
  lemma DistinctOnce<T>(s: seq<T>, m: nat)
    requires m < |s|
    requires forall a, b :: 0 <= a < b < |s| ==> s[a] != s[b]
    ensures multiset(s)[s[m]] == 1
  {
    assert s == s[..m] + [s[m]] + s[m + 1..];
    assert s[m] !in s[..m];
    assert s[m] !in s[m + 1..];
  }

  /** An element at two positions occurs at least twice. */
  lemma MultiplicityTwo<T>(s: seq<T>, i: nat, j: nat)
    requires i < j < |s|
    ensures s[i] == s[j] ==> multiset(s)[s[i]] >= 2
  {
    assert s == s[..i] + [s[i]] + s[i + 1..j] + [s[j]] + s[j + 1..];
  }
}
