/** Sequence facts behind in-place `splice(i, 1)` loops. */
module Splice {

  lemma TakeOneMore<T>(s: seq<T>, i: int)
    requires 0 <= i < |s|
    ensures s[..i + 1] == s[..i] + [s[i]]
  {
  }

  /** Overwriting, then removing, the element between `pre` and `rest`. */
  lemma ReplaceThenRemove<T>(pre: seq<T>, x: T, y: T, rest: seq<T>)
    ensures |pre| < |pre + [x] + rest| && (pre + [x] + rest)[|pre|] == x
    ensures (pre + [x] + rest)[|pre| := y] == pre + [y] + rest
    ensures (pre + [y] + rest)[..|pre|] + (pre + [y] + rest)[|pre| + 1..] == pre + rest
  {
    assert (pre + [y] + rest)[..|pre|] == pre;
    assert (pre + [y] + rest)[|pre| + 1..] == rest;
  }

  /** One step of a backward in-place loop whose invariant is
      `cur == s[..i + 1] + rest`: overwriting position i with y continues
      the prefix with y, and splicing position i out drops it. */
  lemma BackwardStep<T>(s: seq<T>, i: nat, y: T, rest: seq<T>, cur: seq<T>)
    requires i < |s|
    requires cur == s[..i + 1] + rest
    ensures i < |cur| && cur[i] == s[i]
    ensures cur[i := y] == s[..i] + ([y] + rest)
    ensures cur[i := y][..i] + cur[i := y][i + 1..] == s[..i] + rest
  {
    TakeOneMore(s, i);
    ReplaceThenRemove(s[..i], s[i], y, rest);
  }
}
