/**
 * The threshold classification that both sentiment transforms apply to a
 * list of polarity scores (youtube.py and reddit.py carry identical copies).
 */
module Polarity {
  import opened Multisets

  const PositiveThreshold: real := 0.1
  const NegativeThreshold: real := -0.1

  predicate IsPositive(x: real) { x >= PositiveThreshold }
  predicate IsNegative(x: real) { x <= NegativeThreshold }
  /** A score outside the neutral band (-0.1, 0.1). */
  predicate IsClassified(x: real) { x >= PositiveThreshold || x <= NegativeThreshold }

  /** Number of scores satisfying `p`. */
  function Count(s: seq<real>, p: real -> bool): nat
  {
    if |s| == 0 then 0 else (if p(s[0]) then 1 else 0) + Count(s[1..], p)
  }

  /** Number of `true`s in a flag list (Python's `sum` over booleans). */
  function CountTrue(bs: seq<bool>): (r: nat)
    ensures r <= |bs|
  {
    if |bs| == 0 then 0 else (if bs[0] then 1 else 0) + CountTrue(bs[1..])
  }

  /** The `boolean_array` comprehension: one flag per classified score, in
      order, true exactly for the positive ones. */
  function Flags(scores: seq<real>): (r: seq<bool>)
    ensures |r| == Count(scores, IsClassified)
    ensures CountTrue(r) == Count(scores, IsPositive)
  {
    if |scores| == 0 then []
    else
      var rest := Flags(scores[1..]);
      if IsClassified(scores[0]) then
        assert ([IsPositive(scores[0])] + rest)[1..] == rest;
        [IsPositive(scores[0])] + rest
      else rest
  }

  /** One score per text, in order (the scoring loops of both transforms). */
  function Scores(texts: seq<string>, score: string -> real): seq<real>
  {
    seq(|texts|, i requires 0 <= i < |texts| => score(texts[i]))
  }

  lemma ScoresConcat(a: seq<string>, b: seq<string>, score: string -> real)
    ensures Scores(a + b, score) == Scores(a, score) + Scores(b, score)
  {
  }

  lemma ScoresSnoc(texts: seq<string>, t: string, score: string -> real)
    ensures Scores(texts + [t], score) == Scores(texts, score) + [score(t)]
  {
  }

  /** Positive and negative are disjoint and together make up the classified scores. */
  lemma {:induction false} ClassifiedSplits(s: seq<real>)
    ensures Count(s, IsClassified) == Count(s, IsPositive) + Count(s, IsNegative)
  {
    if |s| > 0 {
      ClassifiedSplits(s[1..]);
    }
  }

  lemma {:induction false} CountConcat(a: seq<real>, b: seq<real>, p: real -> bool)
    ensures Count(a + b, p) == Count(a, p) + Count(b, p)
  {
    if |a| == 0 {
      assert a + b == b;
    } else {
      assert (a + b)[1..] == a[1..] + b;
      CountConcat(a[1..], b, p);
    }
  }

  lemma {:induction false} FlagsConcat(a: seq<real>, b: seq<real>)
    ensures Flags(a + b) == Flags(a) + Flags(b)
  {
    if |a| == 0 {
      assert a + b == b;
    } else {
      assert (a + b)[1..] == a[1..] + b;
      FlagsConcat(a[1..], b);
    }
  }

  lemma CountInsert(front: seq<real>, x: real, back: seq<real>, p: real -> bool)
    ensures Count(front + [x] + back, p) == Count(front + back, p) + (if p(x) then 1 else 0)
  {
    CountConcat(front + [x], back, p);
    CountConcat(front, [x], p);
    CountConcat(front, back, p);
  }

  /** A count of scores does not depend on their order. */
  lemma {:induction false} CountPermutation(a: seq<real>, b: seq<real>, p: real -> bool)
    requires multiset(a) == multiset(b)
    ensures Count(a, p) == Count(b, p)
    decreases |a|
  {
    if |a| == 0 {
      assert |b| == |multiset(b)| == 0;
    } else {
      TakeHead(a);
      var j := SplitAround(a[0], b);
      var front, back := b[..j], b[j + 1..];
      CountPermutation(a[1..], front + back, p);
      CountInsert(front, a[0], back, p);
    }
  }
}
