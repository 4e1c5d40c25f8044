/** Python's `sorted(xs, key=k)`: a stable sort on an integer key. */
module Sorting {

  predicate SortedBy<T>(s: seq<T>, key: T -> int) {
    forall i, j :: 0 <= i < j < |s| ==> key(s[i]) <= key(s[j])
  }

  /** `a` may precede `b` in (key1, key2) order. */
  predicate LexLe<T>(a: T, b: T, key1: T -> int, key2: T -> int) {
    key1(a) < key1(b) || (key1(a) == key1(b) && key2(a) <= key2(b))
  }

  /** Ordered by `key1`, and by `key2` among equal `key1`. */
  predicate LexSortedBy<T>(s: seq<T>, key1: T -> int, key2: T -> int) {
    forall i, j :: 0 <= i < j < |s| ==> LexLe(s[i], s[j], key1, key2)
  }

  /** Put `x` before the first element whose key is not smaller, so that `x`
      stays ahead of the elements with an equal key. */
  function Insert<T>(x: T, s: seq<T>, key: T -> int): (r: seq<T>)
    ensures multiset(r) == multiset(s) + multiset{x}
    ensures |r| == |s| + 1
  {
    if |s| == 0 then [x]
    else if key(s[0]) >= key(x) then [x] + s
    else
      assert s == [s[0]] + s[1..];
      [s[0]] + Insert(x, s[1..], key)
  }

  function SortBy<T>(s: seq<T>, key: T -> int): (r: seq<T>)
    ensures multiset(r) == multiset(s)
    ensures |r| == |s|
  {
    if |s| == 0 then []
    else
      assert s == [s[0]] + s[1..];
      Insert(s[0], SortBy(s[1..], key), key)
  }

  lemma {:induction false} InsertSorted<T>(x: T, s: seq<T>, key: T -> int)
    requires SortedBy(s, key)
    ensures SortedBy(Insert(x, s, key), key)
  {
    if |s| > 0 && key(s[0]) < key(x) {
      InsertSorted(x, s[1..], key);
      var r := Insert(x, s[1..], key);
      forall e | e in multiset(r) ensures key(s[0]) <= key(e) {
        assert e in multiset(s[1..]) + multiset{x};
      }
      forall j | 0 < j < |[s[0]] + r| ensures key(s[0]) <= key(([s[0]] + r)[j]) {
        assert r[j - 1] in multiset(r);
      }
    }
  }

  /** The result is in non-decreasing key order. */
  lemma {:induction false} SortBySorted<T>(s: seq<T>, key: T -> int)
    ensures SortedBy(SortBy(s, key), key)
  {
    if |s| > 0 {
      SortBySorted(s[1..], key);
      InsertSorted(s[0], SortBy(s[1..], key), key);
    }
  }

  /** The head of a (key1, key2)-ordered list precedes everything after it,
      and the tail is ordered too. */
  lemma LexHead<T>(s: seq<T>, key1: T -> int, key2: T -> int)
    requires |s| > 0 && LexSortedBy(s, key1, key2)
    ensures forall e :: e in multiset(s[1..]) ==> LexLe(s[0], e, key1, key2)
    ensures LexSortedBy(s[1..], key1, key2)
  {
    forall e | e in multiset(s[1..]) ensures LexLe(s[0], e, key1, key2) {
      var k :| 0 <= k < |s[1..]| && s[1..][k] == e;
      assert s[k + 1] == e;
    }
    forall i, j | 0 <= i < j < |s[1..]| ensures LexLe(s[1..][i], s[1..][j], key1, key2) {
      assert s[1..][i] == s[i + 1] && s[1..][j] == s[j + 1];
    }
  }

  /** An element that precedes everything of an ordered list can head it. */
  lemma LexCons<T>(y: T, r: seq<T>, key1: T -> int, key2: T -> int)
    requires LexSortedBy(r, key1, key2)
    requires forall e :: e in multiset(r) ==> LexLe(y, e, key1, key2)
    ensures LexSortedBy([y] + r, key1, key2)
  {
    var t := [y] + r;
    forall i, j | 0 <= i < j < |t| ensures LexLe(t[i], t[j], key1, key2) {
      assert t[j] == r[j - 1];
      if i == 0 {
        assert r[j - 1] in multiset(r);
      } else {
        assert t[i] == r[i - 1];
      }
    }
  }

  /** Stability: inserting an element whose `key2` is at most every other
      `key2` keeps a (key1, key2) order. */
  lemma {:induction false} InsertLexSorted<T>(x: T, s: seq<T>, key1: T -> int, key2: T -> int)
    requires LexSortedBy(s, key1, key2)
    requires forall e :: e in multiset(s) ==> key2(x) <= key2(e)
    ensures LexSortedBy(Insert(x, s, key1), key1, key2)
  {
    if |s| > 0 {
      LexHead(s, key1, key2);
      assert s == [s[0]] + s[1..];
      if key1(s[0]) >= key1(x) {
        forall e | e in multiset(s) ensures LexLe(x, e, key1, key2) {
          if e != s[0] {
            assert LexLe(s[0], e, key1, key2);
          }
        }
        LexCons(x, s, key1, key2);
      } else {
        InsertLexSorted(x, s[1..], key1, key2);
        LexCons(s[0], Insert(x, s[1..], key1), key1, key2);
      }
    }
  }

  /** Sorting a `key2`-ordered list stably by `key1` orders it by (key1, key2):
      equal `key1` keep their `key2` order. */
  lemma {:induction false} SortByStable<T>(s: seq<T>, key1: T -> int, key2: T -> int)
    requires SortedBy(s, key2)
    ensures LexSortedBy(SortBy(s, key1), key1, key2)
  {
    if |s| > 0 {
      assert SortedBy(s[1..], key2) by {
        forall i, j | 0 <= i < j < |s[1..]| ensures key2(s[1..][i]) <= key2(s[1..][j]) {
          assert s[1..][i] == s[i + 1] && s[1..][j] == s[j + 1];
        }
      }
      SortByStable(s[1..], key1, key2);
      forall e | e in multiset(SortBy(s[1..], key1)) ensures key2(s[0]) <= key2(e) {
        assert e in multiset(s[1..]);
        var k :| 0 <= k < |s[1..]| && s[1..][k] == e;
        assert s[k + 1] == e;
      }
      InsertLexSorted(s[0], SortBy(s[1..], key1), key1, key2);
    }
  }

  /** Sorting an already ordered list changes nothing. */
  lemma {:induction false} SortBySortedUnchanged<T>(s: seq<T>, key: T -> int)
    requires SortedBy(s, key)
    ensures SortBy(s, key) == s
  {
    if |s| > 0 {
      SortedTail(s, key);
      SortBySortedUnchanged(s[1..], key);
      assert SortBy(s, key) == Insert(s[0], s[1..], key);
      InsertAtHead(s[0], s[1..], key);
      assert [s[0]] + s[1..] == s;
    }
  }

  lemma SortedTail<T>(s: seq<T>, key: T -> int)
    requires |s| > 0 && SortedBy(s, key)
    ensures SortedBy(s[1..], key)
    ensures |s| > 1 ==> key(s[0]) <= key(s[1..][0])
  {
    forall i, j | 0 <= i < j < |s[1..]| ensures key(s[1..][i]) <= key(s[1..][j]) {
      assert s[1..][i] == s[i + 1] && s[1..][j] == s[j + 1];
    }
  }

  /** An element with the smallest key is inserted in front. */
  lemma InsertAtHead<T>(x: T, s: seq<T>, key: T -> int)
    requires |s| > 0 ==> key(x) <= key(s[0])
    ensures Insert(x, s, key) == [x] + s
  {
  }
}
