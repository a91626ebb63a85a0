/** Small vocabulary shared by the models: an optional value, and the cardinality facts several proofs need. */
module Prelude {

  datatype Option<+T> = None | Some(value: T)

  function Max(a: int, b: int): int {
    if a < b then b else a
  }

  function Min(a: int, b: int): int {
    if a < b then a else b
  }

  ghost predicate NoDuplicates<T>(s: seq<T>) {
    forall i, j :: 0 <= i < j < |s| ==> s[i] != s[j]
  }

  /** A subset is no larger than its superset. */
  lemma {:induction false} SubsetSize<T>(a: set<T>, b: set<T>)
    requires a <= b
    ensures |a| <= |b|
  {
    assert b == a + (b - a);
  }

  /** A sequence that lists every member of a set is at least as long as the set is large. */
  lemma {:induction false} CoverSize<T>(s: set<T>, q: seq<T>)
    requires forall x :: x in s ==> x in q
    ensures |s| <= |q|
    decreases |q|
  {
    if q == [] {
      assert s == {};
    } else {
      CoverSize(s - {q[0]}, q[1..]);
    }
  }

  /** A duplicate-free sequence holds each of its members once. */
  lemma {:induction false} CountedOnce<T>(s: seq<T>, x: T)
    requires NoDuplicates(s)
    ensures multiset(s)[x] == if x in s then 1 else 0
    decreases |s|
  {
    if s != [] {
      CountedOnce(s[1..], x);
      assert s == [s[0]] + s[1..];
    }
  }

  /** The members of a duplicate-free sequence are as many as its length. */
  lemma {:induction false} DistinctSize<T>(q: seq<T>)
    requires NoDuplicates(q)
    ensures |set x | x in q| == |q|
    decreases |q|
  {
    if q == [] {
      assert (set x | x in q) == {};
    } else {
      DistinctSize(q[1..]);
      assert (set x | x in q) == {q[0]} + (set x | x in q[1..]);
    }
  }
}
