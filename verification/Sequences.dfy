/** Facts about slices of sequences. */
module Sequences {

  ghost predicate IsSuffix<T>(a: seq<T>, b: seq<T>) {
    |a| <= |b| && a == b[|b| - |a|..]
  }

  lemma FullSlice<T>(xs: seq<T>)
    ensures xs[0..] == xs && xs[..|xs|] == xs
  {
  }

  lemma DropDrop<T>(xs: seq<T>, i: nat, k: nat)
    requires i + k <= |xs|
    ensures xs[i..][k..] == xs[i + k..]
  {
  }

  lemma SliceOfSuffix<T>(xs: seq<T>, x: T, e: nat, p: nat)
    requires e <= p <= |xs|
    ensures (xs[e..] + [x])[..p - e] == xs[..p][e..]
  {
  }

  lemma TakeOfDrop<T>(xs: seq<T>, e: nat, p: nat)
    requires e <= p <= |xs|
    ensures xs[e..][..p - e] == xs[..p][e..]
  {
  }

  lemma DropOfSuffix<T>(a: seq<T>, b: seq<T>, n: nat)
    requires IsSuffix(a, b) && n <= |a|
    ensures IsSuffix(a[n..], b)
  {
  }
}
