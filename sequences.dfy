/** Small facts about sequence concatenation, indexing and slicing. They are
    stated for any element type so that the proofs about strings and lists
    of strings can cite them without unfolding string functions. */
module Sequences {
  lemma NilAppend<T>(xs: seq<T>)
    ensures [] + xs == xs
  {
  }

  lemma AppendNil<T>(xs: seq<T>)
    ensures xs + [] == xs
  {
  }

  lemma NilAround<T>(xs: seq<T>)
    ensures [] + xs + [] == xs
  {
  }

  lemma MidNil<T>(p: seq<T>, q: seq<T>)
    ensures p + [] + q == p + q
  {
  }

  lemma Assoc<T>(p: seq<T>, q: seq<T>, r: seq<T>)
    ensures p + (q + r) == p + q + r
  {
  }

  lemma ConsAssoc<T>(x: T, p: seq<T>, q: seq<T>)
    ensures [x] + (p + q) == ([x] + p) + q
  {
  }

  lemma ConsPair<T>(a: T, b: T, c: T)
    ensures [a] + ([b] + [c]) == [a, b, c]
  {
  }

  lemma ConsTail<T>(xs: seq<T>)
    requires xs != []
    ensures [xs[0]] + xs[1..] == xs
  {
  }

  lemma ConsShift<T>(a: T, xs: seq<T>)
    ensures forall i :: 0 < i <= |xs| ==> ([a] + xs)[i] == xs[i - 1]
  {
  }

  lemma TailShift<T>(xs: seq<T>)
    requires xs != []
    ensures forall i :: 0 < i < |xs| ==> xs[1..][i - 1] == xs[i]
  {
  }

  lemma HeadAppend<T>(p: seq<T>, q: seq<T>)
    requires p != []
    ensures (p + q)[0] == p[0] && (p + q)[1..] == p[1..] + q
  {
  }

  lemma SplitAround<T>(s: seq<T>, k: nat)
    requires k < |s|
    ensures s == s[0..k] + [s[k]] + s[k + 1..|s|]
  {
  }
}
