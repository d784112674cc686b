/** `Array.prototype.filter` and the "order-preserving subsequence" notion used
    to state what the filters of the core keep. */
module Sequences {

  /** `s.filter(keep)`: the elements of `s` that satisfy `keep`, in order. */
  function Filter<T>(s: seq<T>, keep: T -> bool): (r: seq<T>)
    ensures |r| <= |s|
    ensures forall i :: 0 <= i < |r| ==> keep(r[i])
  {
    if s == [] then []
    else if keep(s[|s| - 1]) then Filter(s[..|s| - 1], keep) + [s[|s| - 1]]
    else Filter(s[..|s| - 1], keep)
  }

  /** `idx` embeds `a` into `b`: strictly increasing positions of `b`
      holding the elements of `a` in order. */
  ghost predicate EmbedsBy<T>(a: seq<T>, b: seq<T>, idx: seq<int>) {
    && |idx| == |a|
    && (forall i :: 0 <= i < |idx| ==> 0 <= idx[i] < |b| && a[i] == b[idx[i]])
    && (forall i, j :: 0 <= i < j < |idx| ==> idx[i] < idx[j])
  }

  /** `a` is an order-preserving subsequence of `b`. */
  ghost predicate IsSubsequence<T>(a: seq<T>, b: seq<T>) {
    exists idx :: EmbedsBy(a, b, idx)
  }

  /** The positions of `s` that `Filter` keeps. */
  function KeptPositions<T>(s: seq<T>, keep: T -> bool): seq<int>
  {
    if s == [] then []
    else if keep(s[|s| - 1]) then KeptPositions(s[..|s| - 1], keep) + [|s| - 1]
    else KeptPositions(s[..|s| - 1], keep)
  }

  lemma {:induction false} KeptPositionsEmbed<T>(s: seq<T>, keep: T -> bool)
    ensures EmbedsBy(Filter(s, keep), s, KeptPositions(s, keep))
    ensures forall i :: 0 <= i < |KeptPositions(s, keep)| ==> KeptPositions(s, keep)[i] < |s|
  {
    if s != [] {
      var init := s[..|s| - 1];
      KeptPositionsEmbed(init, keep);
    }
  }

  /** What `Filter` keeps is an order-preserving subsequence of its input. */
  lemma FilterIsSubsequence<T>(s: seq<T>, keep: T -> bool)
    ensures IsSubsequence(Filter(s, keep), s)
  {
    KeptPositionsEmbed(s, keep);
  }

  /** `Filter` keeps every occurrence of a satisfying element and drops
      every occurrence of the others. */
  lemma {:induction false} FilterMultiset<T>(s: seq<T>, keep: T -> bool, x: T)
    ensures multiset(Filter(s, keep))[x] == if keep(x) then multiset(s)[x] else 0
  {
    if s != [] {
      var init := s[..|s| - 1];
      FilterMultiset(init, keep, x);
      assert s == init + [s[|s| - 1]];
    }
  }

  /** An element is kept exactly when it is in the input and satisfies `keep`. */
  lemma FilterMembership<T>(s: seq<T>, keep: T -> bool, x: T)
    ensures x in Filter(s, keep) <==> x in s && keep(x)
  {
    FilterMultiset(s, keep, x);
    assert x in Filter(s, keep) <==> multiset(Filter(s, keep))[x] > 0;
    assert x in s <==> multiset(s)[x] > 0;
  }

  /** Filtering keeps the whole input when every element satisfies `keep`. */
  lemma {:induction false} FilterAllKept<T>(s: seq<T>, keep: T -> bool)
    requires forall i :: 0 <= i < |s| ==> keep(s[i])
    ensures Filter(s, keep) == s
  {
    if s != [] {
      FilterAllKept(s[..|s| - 1], keep);
    }
  }

  /** Filtering by a predicate and by its negation splits the input. */
  lemma {:induction false} FilterComplement<T>(s: seq<T>, keep: T -> bool, drop: T -> bool)
    requires forall x :: drop(x) == !keep(x)
    ensures |Filter(s, keep)| + |Filter(s, drop)| == |s|
  {
    if s != [] {
      FilterComplement(s[..|s| - 1], keep, drop);
    }
  }

  /** `s.map(f)`. */
  function Map<T, U>(s: seq<T>, f: T -> U): (r: seq<U>)
    ensures |r| == |s| && forall i :: 0 <= i < |s| ==> r[i] == f(s[i])
  {
    seq(|s|, i requires 0 <= i < |s| => f(s[i]))
  }

  /** Mapping both sides keeps an embedding. */
  lemma MapEmbeds<T, U>(a: seq<T>, b: seq<T>, idx: seq<int>, f: T -> U)
    requires EmbedsBy(a, b, idx)
    ensures EmbedsBy(Map(a, f), Map(b, f), idx)
  {
  }

  /** Mapping both sides keeps the subsequence relation. */
  lemma MapSubsequence<T, U>(a: seq<T>, b: seq<T>, f: T -> U)
    requires IsSubsequence(a, b)
    ensures IsSubsequence(Map(a, f), Map(b, f))
  {
    var idx :| EmbedsBy(a, b, idx);
    MapEmbeds(a, b, idx, f);
  }

  /** A map followed by its left inverse gives the input back. */
  lemma MapInverse<T, U>(s: seq<T>, f: T -> U, g: U -> T)
    requires forall x :: g(f(x)) == x
    ensures Map(Map(s, f), g) == s
  {
  }
}
