/**
 * The string operations the monitor relies on: prefix tests, Python's
 * `"\n".join(...)` and its inverse `str.split("\n")`, and the scan that
 * reads up to a delimiter.
 */
module Text {

  predicate StartsWith(s: string, prefix: string) {
    |prefix| <= |s| && s[..|prefix|] == prefix
  }

  /** The longest prefix of `s` that does not contain `c`. */
  function TakeUntil(s: string, c: char): (r: string)
    ensures c !in r
    ensures StartsWith(s, r)
    ensures |r| < |s| ==> s[|r|] == c
  {
    if s == [] || s[0] == c then [] else [s[0]] + TakeUntil(s[1..], c)
  }

  lemma {:induction false} TakeUntilConcat(a: string, c: char, b: string)
    requires c !in a
    requires |b| >= 1 && b[0] == c
    ensures TakeUntil(a + b, c) == a
  {
    if a != [] {
      assert (a + b)[1..] == a[1..] + b;
      TakeUntilConcat(a[1..], c, b);
    }
  }

  /** Python's `"\n".join(xs)`. */
  function JoinLines(xs: seq<string>): (r: string)
    ensures |xs| >= 1 ==> StartsWith(r, xs[0])
    ensures |r| >= |xs| - 1
  {
    if xs == [] then [] else if |xs| == 1 then xs[0] else xs[0] + "\n" + JoinLines(xs[1..])
  }

  /** Python's `s.split("\n")`: always at least one piece. */
  function SplitLines(s: string): (r: seq<string>)
    ensures |r| >= 1
  {
    if s == [] then [[]]
    else if s[0] == '\n' then [[]] + SplitLines(s[1..])
    else
      var rest := SplitLines(s[1..]);
      [[s[0]] + rest[0]] + rest[1..]
  }

  lemma {:induction false} SplitSingleLine(x: string)
    requires '\n' !in x
    ensures SplitLines(x) == [x]
  {
    if x != [] {
      SplitSingleLine(x[1..]);
      assert [x[0]] + x[1..] == x;
    }
  }

  lemma {:induction false} SplitLineThenRest(x: string, t: string)
    requires '\n' !in x
    ensures SplitLines(x + "\n" + t) == [x] + SplitLines(t)
  {
    if x == [] {
      assert x + "\n" + t == "\n" + t;
      assert ("\n" + t)[1..] == t;
    } else {
      assert (x + "\n" + t)[1..] == x[1..] + "\n" + t;
      SplitLineThenRest(x[1..], t);
      assert [x[0]] + x[1..] == x;
    }
  }

  /** Splitting a join of newline-free lines gives the lines back. */
  lemma {:induction false} SplitJoinLines(xs: seq<string>)
    requires |xs| >= 1
    requires forall i :: 0 <= i < |xs| ==> '\n' !in xs[i]
    ensures SplitLines(JoinLines(xs)) == xs
  {
    if |xs| == 1 {
      SplitSingleLine(xs[0]);
    } else {
      SplitLineThenRest(xs[0], JoinLines(xs[1..]));
      SplitJoinLines(xs[1..]);
    }
  }

  /** `SplitJoinLines` as an implication, for use where the lines may contain breaks. */
  lemma SplitJoinLinesWithoutBreaks(xs: seq<string>)
    ensures |xs| >= 1 && (forall i :: 0 <= i < |xs| ==> '\n' !in xs[i]) ==> SplitLines(JoinLines(xs)) == xs
  {
    if |xs| >= 1 && forall i :: 0 <= i < |xs| ==> '\n' !in xs[i] {
      SplitJoinLines(xs);
    }
  }
}
