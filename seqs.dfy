/** Sequence vocabulary shared by the favourites list (server and client) and the
    notification de-duplication: subsequences, distinctness and filtering out one value. */
module Seqs {

  /** `a` is obtained from `b` by deleting elements, keeping the order of the rest. */
  predicate IsSubseq<T(==)>(a: seq<T>, b: seq<T>)
  {
    if a == [] then true
    else if b == [] then false
    else if a[0] == b[0] then IsSubseq(a[1..], b[1..])
    else IsSubseq(a, b[1..])
  }

  lemma {:induction false} SubseqLength<T>(a: seq<T>, b: seq<T>)
    requires IsSubseq(a, b)
    ensures |a| <= |b|
  {
    if a != [] {
      if a[0] == b[0] {
        SubseqLength(a[1..], b[1..]);
      } else {
        SubseqLength(a, b[1..]);
      }
    }
  }

  lemma {:induction false} SubseqMembers<T>(a: seq<T>, b: seq<T>)
    requires IsSubseq(a, b)
    ensures forall x :: x in a ==> x in b
  {
    if a != [] {
      assert forall x :: x in a ==> x == a[0] || x in a[1..];
      if a[0] == b[0] {
        SubseqMembers(a[1..], b[1..]);
      } else {
        SubseqMembers(a, b[1..]);
      }
    }
  }

  /** No value occurs twice. */
  predicate Distinct<T(==)>(s: seq<T>)
  {
    forall i, j :: 0 <= i < j < |s| ==> s[i] != s[j]
  }

  /** `s.filter(y => y !== x)`: every occurrence of `x` removed, the rest in order. */
  function Without<T(==,!new)>(s: seq<T>, x: T): (r: seq<T>)
    ensures x !in r
    ensures forall y :: y != x ==> (y in r <==> y in s)
    ensures |r| <= |s|
  {
    if s == [] then []
    else if s[0] == x then Without(s[1..], x)
    else [s[0]] + Without(s[1..], x)
  }

  /** Filtering keeps the order of the remaining elements and exactly their multiplicities. */
  lemma {:induction false} WithoutIsOrderedRemoval<T(!new)>(s: seq<T>, x: T)
    ensures IsSubseq(Without(s, x), s)
    ensures multiset(Without(s, x)) == multiset(s)[x := 0]
  {
    if s != [] {
      WithoutIsOrderedRemoval(s[1..], x);
      assert s == [s[0]] + s[1..];
      if s[0] != x {
        var w := Without(s[1..], x);
        assert Without(s, x)[1..] == w;
      } else {
        SubseqAppendLeft(Without(s, x), s[1..], s[0]);
      }
    }
  }

  /** A subsequence of `b` is a subsequence of any extension of `b` at the front. */
  lemma {:induction false} SubseqAppendLeft<T>(a: seq<T>, b: seq<T>, y: T)
    requires IsSubseq(a, b)
    ensures IsSubseq(a, [y] + b)
    decreases |b|, 1
  {
    if a != [] && a[0] == y {
      assert ([y] + b)[1..] == b;
      SubseqDropFirst(a, b);
    } else {
      assert ([y] + b)[1..] == b;
    }
  }

  lemma {:induction false} SubseqDropFirst<T>(a: seq<T>, b: seq<T>)
    requires a != [] && IsSubseq(a, b)
    ensures IsSubseq(a[1..], b)
    decreases |b|, 0
  {
    if a[0] == b[0] {
      if a[1..] != [] {
        SubseqAppendLeft(a[1..], b[1..], b[0]);
        assert [b[0]] + b[1..] == b;
      }
    } else {
      SubseqDropFirst(a, b[1..]);
      if a[1..] != [] {
        SubseqAppendLeft(a[1..], b[1..], b[0]);
        assert [b[0]] + b[1..] == b;
      }
    }
  }

  /** Removing an absent value changes nothing, and removing twice is removing once. */
  lemma {:induction false} WithoutAbsentAndIdempotent<T(!new)>(s: seq<T>, x: T)
    ensures x !in s ==> Without(s, x) == s
    ensures Without(Without(s, x), x) == Without(s, x)
  {
    if s != [] {
      WithoutAbsentAndIdempotent(s[1..], x);
      if x !in s {
        assert x !in s[1..];
      }
    }
  }
}
