/** The list comprehension and the slice `s[:n]` that the formatters and the row loop use. */
module Seqs {

  /** `[f(x) for x in s]` */
  function Map<A, B>(s: seq<A>, f: A -> B): (r: seq<B>)
    ensures |r| == |s| && forall k :: 0 <= k < |s| ==> r[k] == f(s[k])
  {
    seq(|s|, k requires 0 <= k < |s| => f(s[k]))
  }

  lemma MapSnoc<A, B>(s: seq<A>, f: A -> B, j: nat)
    requires j < |s|
    ensures Map(s[..j + 1], f) == Map(s[..j], f) + [f(s[j])]
  {
  }

  lemma MapTake<A, B>(s: seq<A>, f: A -> B, n: nat)
    ensures Map(Take(s, n), f) == Take(Map(s, f), n)
  {
  }

  /** `s[:n]` */
  function Take<T>(s: seq<T>, n: nat): (r: seq<T>)
    ensures |r| == (if |s| <= n then |s| else n) && r == s[..|r|]
  {
    if |s| <= n then s else s[..n]
  }
}
