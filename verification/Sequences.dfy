/** Subsequences selected by a test, and folds. */
module Sequences {
  function Keep<T>(s: seq<T>, test: T -> bool): seq<T> {
    if s == [] then []
    else if test(s[0]) then [s[0]] + Keep(s[1..], test)
    else Keep(s[1..], test)
  }

  lemma {:induction false} KeepAppend<T>(s: seq<T>, t: seq<T>, test: T -> bool)
    ensures Keep(s + t, test) == Keep(s, test) + Keep(t, test)
  {
    if s == [] {
      assert s + t == t;
    } else {
      KeepAppend(s[1..], t, test);
      assert (s + t)[1..] == s[1..] + t;
    }
  }

  /** The state after a step for each element. */
  function Fold<S, T>(step: (S, T) -> S, start: S, s: seq<T>): S {
    if s == [] then start else step(Fold(step, start, s[..|s| - 1]), s[|s| - 1])
  }

  lemma {:induction false} FoldSplit<S, T>(step: (S, T) -> S, start: S, s: seq<T>, t: seq<T>)
    ensures Fold(step, start, s + t) == Fold(step, Fold(step, start, s), t)
    decreases |t|
  {
    if t == [] {
      assert s + t == s;
    } else {
      var n := |t| - 1;
      FoldSplit(step, start, s, t[..n]);
      assert (s + t)[..|s| + n] == s + t[..n];
    }
  }

  lemma FoldFive<S, T>(step: (S, T) -> S, start: S, a: T, b: T, c: T, d: T, e: T)
    ensures Fold(step, start, [a, b, c, d, e]) == step(step(step(step(step(start, a), b), c), d), e)
  {
    var s := [a, b, c, d, e];
    assert s[..4] == [a, b, c, d] && s[..4][..3] == [a, b, c] && s[..4][..3][..2] == [a, b];
    assert s[..4][..3][..2][..1] == [a] && [a][..0] == [];
    assert Fold(step, start, [a]) == step(start, a);
    assert Fold(step, start, [a, b]) == step(step(start, a), b);
    assert Fold(step, start, [a, b, c]) == step(step(step(start, a), b), c);
  }

  lemma FoldThrice<S, T>(step: (S, T) -> S, s0: S, s1: S, s2: S, s3: S, round: seq<T>)
    requires Fold(step, s0, round) == s1 && Fold(step, s1, round) == s2 && Fold(step, s2, round) == s3
    ensures Fold(step, s0, round + round + round) == s3
  {
    FoldSplit(step, s0, round, round);
    FoldSplit(step, s0, round + round, round);
  }
}
