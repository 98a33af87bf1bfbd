/** Facts about sequences shared by the modules of the model. */
module Sequences {

  /** Concatenation is associative; stated once so that proofs can regroup without unfolding. */
  lemma AppendAssoc<T>(a: seq<T>, b: seq<T>, c: seq<T>)
    ensures a + b + c == a + (b + c)
  {
  }

  /** Appending a two-element display is appending its elements one at a time. */
  lemma AppendPair<T>(a: seq<T>, x: T, y: T)
    ensures a + [x, y] == a + [x] + [y]
  {
  }

  /** A sequence is its first i + 1 elements followed by the rest. */
  lemma CutAfter<T>(s: seq<T>, i: nat)
    requires i < |s|
    ensures s == s[..i + 1] + s[i + 1..]
    ensures s[..i + 1][..i] == s[..i] && s[..i + 1][i] == s[i]
  {
  }

  /** Dropping the last element of a + b, for b non-empty, drops it from b. */
  lemma InitOfAppend<T>(a: seq<T>, b: seq<T>)
    requires b != []
    ensures (a + b)[..|a + b| - 1] == a + b[..|b| - 1] && (a + b)[|a + b| - 1] == b[|b| - 1]
  {
  }
}
