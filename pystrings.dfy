/**
 * The few Python string operations the core relies on: `s.split(c)` and
 * `c.join(ts)` for a one-character separator, and the substring test `p in s`.
 */
module PyStrings {

  /** Python's `s.split(sep)` with an explicit one-character separator:
      every separator ends a token, so adjacent separators give empty tokens. */
  function Split(s: string, sep: char): (r: seq<string>)
    ensures |r| >= 1
    decreases |s|
  {
    if |s| == 0 then [""]
    else if s[0] == sep then [""] + Split(s[1..], sep)
    else
      var rest := Split(s[1..], sep);
      [[s[0]] + rest[0]] + rest[1..]
  }

  /** Python's `sep.join(ts)`. */
  function JoinWith(ts: seq<string>, sep: char): (r: string)
    ensures |ts| >= 1 ==> StartsWith(r, ts[0])
  {
    if |ts| == 0 then ""
    else if |ts| == 1 then ts[0]
    else ts[0] + [sep] + JoinWith(ts[1..], sep)
  }

  predicate StartsWith(s: string, p: string) {
    |p| <= |s| && s[..|p|] == p
  }

  /** `p` occurs in `s` at offset `k`. */
  predicate OccursAt(s: string, p: string, k: nat) {
    k + |p| <= |s| && s[k..k + |p|] == p
  }

  /** Python's `p in s` for strings: `p` occurs at some offset of `s`. */
  predicate Contains(s: string, p: string)
    ensures Contains(s, p) <==> exists k: nat :: OccursAt(s, p, k)
    decreases |s|
  {
    OccursStep(s, p);
    StartsWith(s, p) || (|s| > 0 && Contains(s[1..], p))
  }

  /** An occurrence is at the front or, for a non-empty string, in its tail. */
  lemma OccursStep(s: string, p: string)
    ensures (exists k: nat :: OccursAt(s, p, k)) <==>
      StartsWith(s, p) || (|s| > 0 && exists k: nat :: OccursAt(s[1..], p, k))
  {
    if exists k: nat :: OccursAt(s, p, k) {
      var k: nat :| OccursAt(s, p, k);
      if k == 0 {
        assert s[..|p|] == s[0..|p|];
      } else {
        assert s[1..][k - 1..k - 1 + |p|] == s[k..k + |p|];
        assert OccursAt(s[1..], p, k - 1);
      }
    }
    if StartsWith(s, p) {
      assert s[..|p|] == s[0..|p|];
      assert OccursAt(s, p, 0);
    }
    if |s| > 0 && exists k: nat :: OccursAt(s[1..], p, k) {
      var k: nat :| OccursAt(s[1..], p, k);
      assert s[1..][k..k + |p|] == s[k + 1..k + 1 + |p|];
      assert OccursAt(s, p, k + 1);
    }
  }

  /** Python's `any(p in t for t in ts)`: some token contains `p`. */
  predicate AnyContains(ts: seq<string>, p: string)
    ensures AnyContains(ts, p) <==> exists i :: 0 <= i < |ts| && Contains(ts[i], p)
  {
    assert forall i :: 1 <= i < |ts| ==> ts[1..][i - 1] == ts[i];
    |ts| > 0 && (Contains(ts[0], p) || AnyContains(ts[1..], p))
  }

  /** No token of a split holds the separator. */
  lemma {:induction false} SplitTokensFree(s: string, sep: char)
    ensures forall i :: 0 <= i < |Split(s, sep)| ==> sep !in Split(s, sep)[i]
    decreases |s|
  {
    if |s| > 0 {
      SplitTokensFree(s[1..], sep);
    }
  }

  /** Joining the tokens of a split gives the string back. */
  lemma {:induction false} JoinSplit(s: string, sep: char)
    ensures JoinWith(Split(s, sep), sep) == s
    decreases |s|
  {
    if |s| > 0 {
      var rest := Split(s[1..], sep);
      JoinSplit(s[1..], sep);
      if s[0] == sep {
        assert Split(s, sep) == [""] + rest;
        assert (["" ] + rest)[1..] == rest;
      } else {
        var ts := Split(s, sep);
        assert ts == [[s[0]] + rest[0]] + rest[1..];
        if |rest| == 1 {
          assert JoinWith(rest, sep) == rest[0];
        } else {
          assert JoinWith(rest, sep) == rest[0] + [sep] + JoinWith(rest[1..], sep);
          assert ts[1..] == rest[1..];
        }
      }
    }
  }

  /** Splitting a separator-free string gives that one token. */
  lemma {:induction false} SplitFree(t: string, sep: char)
    requires sep !in t
    ensures Split(t, sep) == [t]
    decreases |t|
  {
    if |t| > 0 {
      SplitFree(t[1..], sep);
      assert [t[0]] + t[1..] == t;
    }
  }

  /** A separator-free token followed by a separator splits off as the first token. */
  lemma {:induction false} SplitAfterToken(t: string, sep: char, rest: string)
    requires sep !in t
    ensures Split(t + [sep] + rest, sep) == [t] + Split(rest, sep)
    decreases |t|
  {
    var s := t + [sep] + rest;
    if |t| == 0 {
      assert s == [sep] + rest;
      assert s[1..] == rest;
    } else {
      assert s[1..] == t[1..] + [sep] + rest;
      SplitAfterToken(t[1..], sep, rest);
      assert [t[0]] + t[1..] == t;
    }
  }

  /** Splitting a join of separator-free tokens gives the tokens back. */
  lemma {:induction false} SplitJoin(ts: seq<string>, sep: char)
    requires |ts| >= 1
    requires forall i :: 0 <= i < |ts| ==> sep !in ts[i]
    ensures Split(JoinWith(ts, sep), sep) == ts
    decreases |ts|
  {
    if |ts| == 1 {
      SplitFree(ts[0], sep);
    } else {
      SplitJoin(ts[1..], sep);
      SplitAfterToken(ts[0], sep, JoinWith(ts[1..], sep));
    }
  }

  /** The first token of a split is the prefix of `s` up to the first separator. */
  lemma {:induction false} FirstToken(s: string, sep: char)
    ensures var t := Split(s, sep)[0];
      StartsWith(s, t) && sep !in t && (|t| == |s| || s[|t|] == sep)
    decreases |s|
  {
    if |s| > 0 && s[0] != sep {
      FirstToken(s[1..], sep);
      var r := Split(s[1..], sep)[0];
      assert Split(s, sep)[0] == [s[0]] + r;
    }
  }

  /** A pattern free of the separator begins `s` exactly when it begins `s`'s first token. */
  lemma StartsWithFirstToken(s: string, sep: char, p: string)
    requires sep !in p
    ensures StartsWith(s, p) <==> StartsWith(Split(s, sep)[0], p)
  {
    var t := Split(s, sep)[0];
    FirstToken(s, sep);
    if StartsWith(s, p) && |t| < |s| {
      // p cannot reach past t: s[|t|] is the separator, which p lacks
      assert s[|t|] == sep;
      assert forall k :: 0 <= k < |p| ==> p[k] == s[k] && p[k] != sep;
    }
    if StartsWith(t, p) {
      assert s[..|p|] == t[..|p|];
    }
  }

  /** For a non-empty pattern without the separator, "some token of the split
      contains p" is the same as "s contains p". */
  lemma {:induction false} AnyTokenContainsIff(s: string, sep: char, p: string)
    requires |p| > 0 && sep !in p
    ensures AnyContains(Split(s, sep), p) <==> Contains(s, p)
    decreases |s|
  {
    if |s| == 0 {
      assert Split(s, sep) == [""];
      assert !Contains("", p);
      assert Split(s, sep)[1..] == [];
    } else {
      var rest := Split(s[1..], sep);
      AnyTokenContainsIff(s[1..], sep, p);
      if s[0] == sep {
        assert Split(s, sep) == [""] + rest;
        assert (["" ] + rest)[1..] == rest;
        assert !Contains("", p);
        assert p[0] != s[0];
      } else {
        var t := [s[0]] + rest[0];
        assert Split(s, sep) == [t] + rest[1..];
        StartsWithFirstToken(s, sep, p);
        assert t[1..] == rest[0];
        assert Contains(t, p) <==> StartsWith(t, p) || Contains(rest[0], p);
      }
    }
  }
}
