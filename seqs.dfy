/** List helpers: element-wise combination of lists, the shape of a loop that writes one row
    per item, the prefix a loop has consumed, and facts about concatenation. */
module Seqs {

  lemma Assoc<A>(a: seq<A>, b: seq<A>, c: seq<A>)
    ensures a + (b + c) == a + b + c
  {
  }

  lemma PrefixOfAppend<A>(a: seq<A>, b: seq<A>, c: seq<A>)
    requires a <= b
    ensures a <= b + c
  {
    assert (b + c)[..|b|] == b;
  }

  /** Equal lists with a common prefix agree after it. */
  lemma AppendCancel<A>(a: seq<A>, b: seq<A>, c: seq<A>)
    requires a + b == a + c
    ensures b == c
  {
    assert (a + b)[|a|..] == b;
    assert (a + c)[|a|..] == c;
  }

  /** The last |b| elements of a + b are b. */
  lemma SuffixOfAppend<A>(a: seq<A>, b: seq<A>)
    ensures var s := a + b; |b| <= |s| && s[|s| - |b|..] == b
  {
    assert (a + b)[|a|..] == b;
  }

  /** The prefix of length i + 1 is the prefix of length i followed by element i. */
  lemma TakeSnoc<A>(xs: seq<A>, i: nat)
    requires i < |xs|
    ensures xs[..i + 1] == xs[..i] + [xs[i]]
  {
  }

  /** [f(xs[0]), f(xs[1]), ...]. */
  function Map<A, B>(xs: seq<A>, f: A -> B): (ys: seq<B>)
    ensures |ys| == |xs|
  {
    if xs == [] then [] else [f(xs[0])] + Map(xs[1..], f)
  }

  lemma {:induction false} MapAt<A, B>(xs: seq<A>, f: A -> B, k: nat)
    requires k < |xs|
    ensures Map(xs, f)[k] == f(xs[k])
  {
    if k > 0 {
      MapAt(xs[1..], f, k - 1);
      assert xs[1..][k - 1] == xs[k];
    }
  }

  /** [f(xs[0], ys[0]), f(xs[1], ys[1]), ...], built from the back. */
  function ZipWith<A, B, C>(xs: seq<A>, ys: seq<B>, f: (A, B) -> C): (zs: seq<C>)
    requires |xs| == |ys|
    ensures |zs| == |xs|
    decreases |xs|
  {
    if xs == [] then [] else ZipWith(xs[..|xs| - 1], ys[..|ys| - 1], f) + [f(xs[|xs| - 1], ys[|ys| - 1])]
  }

  lemma {:induction false} ZipWithAt<A, B, C>(xs: seq<A>, ys: seq<B>, f: (A, B) -> C, k: nat)
    requires |xs| == |ys| && k < |xs|
    ensures ZipWith(xs, ys, f)[k] == f(xs[k], ys[k])
    decreases |xs|
  {
    var n := |xs|;
    if k < n - 1 {
      ZipWithAt(xs[..n - 1], ys[..n - 1], f, k);
      assert xs[..n - 1][k] == xs[k] && ys[..n - 1][k] == ys[k];
    }
  }

  lemma ZipWithSnoc<A, B, C>(xs: seq<A>, ys: seq<B>, y: B, k: nat, f: (A, B) -> C)
    requires k < |xs| && |ys| == k
    ensures ZipWith(xs[..k + 1], ys + [y], f) == ZipWith(xs[..k], ys, f) + [f(xs[k], y)]
  {
    assert xs[..k + 1][..k] == xs[..k];
    assert (ys + [y])[..k] == ys;
  }
}
