/** The two halves of a Mongoose `find(filter).sort(key)` over a collection: selecting the
    documents that match a filter, in insertion order, and sorting them by a numeric key.

    A collection is a map from server-generated ids to documents; ids are handed out by a
    counter, so ascending id order is insertion order (MongoDB's natural order). The sort is a
    stable insertion sort: documents with equal keys keep insertion order. */
module Query {
  import opened Seqs

  /** A stored document together with its `_id`. */
  datatype Row<T> = Row(id: nat, rec: T)

  /** Ids strictly increase along the sequence. */
  predicate IdsIncreasing<T>(r: seq<Row<T>>)
  {
    forall i, j :: 0 <= i < j < |r| ==> r[i].id < r[j].id
  }

  /** The documents with an id below `n` that satisfy `p`, in id order. */
  function Select<T(!new)>(store: map<nat, T>, n: nat, p: T -> bool): (r: seq<Row<T>>)
    ensures forall x :: x in r <==> (x.id < n && x.id in store && store[x.id] == x.rec && p(x.rec))
    ensures IdsIncreasing(r)
  {
    if n == 0 then []
    else
      var prefix := Select(store, n - 1, p);
      if n - 1 in store && p(store[n - 1]) then prefix + [Row(n - 1, store[n - 1])] else prefix
  }

  /** Selecting with two filters that agree on every document gives the same rows. */
  lemma {:induction false} SelectSameFilter<T(!new)>(store: map<nat, T>, n: nat, p: T -> bool, q: T -> bool)
    requires forall t :: p(t) == q(t)
    ensures Select(store, n, p) == Select(store, n, q)
  {
    if n > 0 {
      SelectSameFilter(store, n - 1, p, q);
    }
  }

  /** `key` never decreases along the sequence. */
  predicate SortedBy<T>(s: seq<T>, key: T -> int)
  {
    forall i, j :: 0 <= i < j < |s| ==> key(s[i]) <= key(s[j])
  }

  /** Inserts `x` before the first element whose key is not smaller. */
  function Insert<T>(x: T, s: seq<T>, key: T -> int): (r: seq<T>)
    ensures multiset(r) == multiset(s) + multiset{x}
  {
    if s == [] || key(x) <= key(s[0]) then [x] + s
    else
      assert s == [s[0]] + s[1..];
      [s[0]] + Insert(x, s[1..], key)
  }

  lemma InsertMembers<T>(x: T, s: seq<T>, key: T -> int)
    ensures forall y :: y in Insert(x, s, key) <==> y == x || y in s
  {
    var r := Insert(x, s, key);
    forall y ensures y in r <==> y == x || y in s {
      assert y in r <==> y in multiset(r);
      assert y in s <==> y in multiset(s);
    }
  }

  /** Inserting into a sorted sequence keeps it sorted. */
  lemma {:induction false} InsertSorted<T>(x: T, s: seq<T>, key: T -> int)
    requires SortedBy(s, key)
    ensures SortedBy(Insert(x, s, key), key)
  {
    if s != [] && key(x) > key(s[0]) {
      InsertSorted(x, s[1..], key);
      var tail := Insert(x, s[1..], key);
      assert forall y :: y in s[1..] ==> key(s[0]) <= key(y);
      assert forall k :: 0 <= k < |tail| ==> key(s[0]) <= key(tail[k]) by {
        forall k | 0 <= k < |tail| ensures key(s[0]) <= key(tail[k]) {
          assert tail[k] in multiset(tail);
          assert tail[k] == x || tail[k] in multiset(s[1..]);
        }
      }
    }
  }

  /** Inserting a new value into a duplicate-free sequence keeps it duplicate-free. */
  lemma {:induction false} InsertDistinct<T>(x: T, s: seq<T>, key: T -> int)
    requires Distinct(s) && x !in s
    ensures Distinct(Insert(x, s, key))
  {
    if s != [] && key(x) > key(s[0]) {
      InsertDistinct(x, s[1..], key);
      InsertMembers(x, s[1..], key);
      assert s[0] !in s[1..];
    }
  }

  /** `.sort({key: 1})`: a stable ascending sort. */
  function SortBy<T>(s: seq<T>, key: T -> int): (r: seq<T>)
    ensures multiset(r) == multiset(s)
    ensures SortedBy(r, key)
    ensures Distinct(s) ==> Distinct(r)
  {
    if s == [] then []
    else
      var rest := SortBy(s[1..], key);
      assert s == [s[0]] + s[1..];
      InsertSorted(s[0], rest, key);
      SortStepDistinct(s, rest, key);
      Insert(s[0], rest, key)
  }

  lemma SortStepDistinct<T>(s: seq<T>, rest: seq<T>, key: T -> int)
    requires s != [] && multiset(rest) == multiset(s[1..])
    requires Distinct(s) ==> Distinct(rest)
    ensures Distinct(s) ==> Distinct(Insert(s[0], rest, key))
  {
    if Distinct(s) {
      assert s[0] !in s[1..];
      assert s[0] in rest <==> s[0] in multiset(s[1..]);
      InsertDistinct(s[0], rest, key);
    }
  }

  /** Sorting neither adds nor drops documents. */
  lemma SortByMembers<T>(s: seq<T>, key: T -> int)
    ensures forall x :: x in SortBy(s, key) <==> x in s
  {
    var r := SortBy(s, key);
    forall x ensures x in r <==> x in s {
      assert x in r <==> x in multiset(r);
    }
  }

  /** Rows drawn from one map with pairwise different values have pairwise different ids. */
  lemma DistinctRowsDistinctIds<T>(store: map<nat, T>, r: seq<Row<T>>)
    requires Distinct(r)
    requires forall x :: x in r ==> x.id in store && store[x.id] == x.rec
    ensures forall i, j :: 0 <= i < j < |r| ==> r[i].id != r[j].id
  {
    forall i, j | 0 <= i < j < |r| ensures r[i].id != r[j].id {
      assert r[i] in r && r[j] in r;
    }
  }

  lemma IncreasingIdsDistinct<T>(r: seq<Row<T>>)
    requires IdsIncreasing(r)
    ensures Distinct(r)
  {
  }
}
