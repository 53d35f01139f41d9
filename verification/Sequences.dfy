/** Facts about sequences of anything. */
module Sequences {

  ghost predicate Distinct<T>(xs: seq<T>) {
    forall i, j | 0 <= i < j < |xs| :: xs[i] != xs[j]
  }

  lemma ConcatAssociates<T>(a: seq<T>, b: seq<T>, c: seq<T>)
    ensures (a + b) + c == a + (b + c)
  {
  }

  lemma Cut<T>(xs: seq<T>, n: nat)
    requires n <= |xs|
    ensures xs == xs[..n] + xs[n..]
  {
  }

  lemma CutAround<T>(xs: seq<T>, i: nat)
    requires i < |xs|
    ensures xs == xs[..i] + ([xs[i]] + xs[i + 1..])
  {
  }

  lemma ConcatTail<T>(a: seq<T>, b: seq<T>)
    requires a != []
    ensures a + b != [] && (a + b)[0] == a[0] && (a + b)[1..] == a[1..] + b
  {
  }

  lemma WithoutAt<T>(xs: seq<T>, i: nat)
    requires i < |xs|
    ensures var ys := xs[..i] + xs[i + 1..];
            |ys| == |xs| - 1 && forall k | 0 <= k < |ys| :: ys[k] == xs[if k < i then k else k + 1]
  {
  }
}
