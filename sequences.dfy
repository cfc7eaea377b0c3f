/** Small facts about sequences shared by the list-building parts of the page. */
module Sequences {

  /** Appending in two steps appends the two pieces joined. */
  lemma AppendAssoc<T>(xs: seq<T>, ys: seq<T>, zs: seq<T>)
    ensures xs + ys + zs == xs + (ys + zs)
  {
  }

  /** xs is a prefix of ys. */
  ghost predicate IsPrefix<T>(xs: seq<T>, ys: seq<T>) {
    |xs| <= |ys| && ys[..|xs|] == xs
  }

  lemma SelfPrefix<T>(xs: seq<T>)
    ensures IsPrefix(xs, xs)
  {
    assert xs[..|xs|] == xs;
  }

  lemma AppendPrefix<T>(xs: seq<T>, ys: seq<T>)
    ensures IsPrefix(xs, xs + ys)
  {
    assert (xs + ys)[..|xs|] == xs;
  }

  lemma PrefixTrans<T>(xs: seq<T>, ys: seq<T>, zs: seq<T>)
    requires IsPrefix(xs, ys) && IsPrefix(ys, zs)
    ensures IsPrefix(xs, zs)
  {
    assert zs[..|xs|] == zs[..|ys|][..|xs|];
  }
}
