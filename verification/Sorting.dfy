/** Insertion sort by any order: the reference sort of the models that need one. */
module Sorting {

  /** `le` is total and transitive. */
  ghost predicate IsOrder<T(!new)>(le: (T, T) -> bool) {
    (forall a, b :: le(a, b) || le(b, a)) && (forall a, b, c :: le(a, b) && le(b, c) ==> le(a, c))
  }

  ghost predicate SortedBy<T>(le: (T, T) -> bool, s: seq<T>) {
    forall i, j :: 0 <= i < j < |s| ==> le(s[i], s[j])
  }

  ghost predicate AllAbove<T>(le: (T, T) -> bool, lo: T, s: seq<T>) {
    forall i :: 0 <= i < |s| ==> le(lo, s[i])
  }

  function Insert<T>(le: (T, T) -> bool, x: T, s: seq<T>): seq<T> {
    if s == [] || le(x, s[0]) then [x] + s else [s[0]] + Insert(le, x, s[1..])
  }

  function Sort<T>(le: (T, T) -> bool, s: seq<T>): seq<T> {
    if s == [] then [] else Insert(le, s[0], Sort(le, s[1..]))
  }

  lemma {:induction false} HeadAndTail<T>(s: seq<T>)
    requires s != []
    ensures multiset(s) == multiset{s[0]} + multiset(s[1..])
  {
    assert s == [s[0]] + s[1..];
  }

  lemma {:induction false} InsertAdds<T>(le: (T, T) -> bool, x: T, s: seq<T>)
    ensures multiset(Insert(le, x, s)) == multiset(s) + multiset{x}
    decreases |s|
  {
    if s != [] && !le(x, s[0]) {
      InsertAdds(le, x, s[1..]);
      HeadAndTail(s);
    }
  }

  lemma {:induction false} InsertAbove<T>(le: (T, T) -> bool, lo: T, x: T, s: seq<T>)
    requires le(lo, x) && AllAbove(le, lo, s)
    ensures AllAbove(le, lo, Insert(le, x, s))
    decreases |s|
  {
    if s != [] && !le(x, s[0]) {
      InsertAbove(le, lo, x, s[1..]);
    }
  }

  lemma {:induction false} InsertSorts<T(!new)>(le: (T, T) -> bool, x: T, s: seq<T>)
    requires IsOrder(le) && SortedBy(le, s)
    ensures SortedBy(le, Insert(le, x, s))
    decreases |s|
  {
    if s != [] && !le(x, s[0]) {
      InsertSorts(le, x, s[1..]);
      InsertAbove(le, s[0], x, s[1..]);
    } else {
      forall i | 0 <= i < |s| ensures le(x, s[i]) { assert i > 0 ==> le(s[0], s[i]); }
    }
  }

  /** A sorted permutation of the input. */
  lemma {:induction false} SortSorts<T(!new)>(le: (T, T) -> bool, s: seq<T>)
    requires IsOrder(le)
    ensures SortedBy(le, Sort(le, s)) && multiset(Sort(le, s)) == multiset(s)
    decreases |s|
  {
    if s != [] {
      SortSorts(le, s[1..]);
      InsertSorts(le, s[0], Sort(le, s[1..]));
      InsertAdds(le, s[0], Sort(le, s[1..]));
      HeadAndTail(s);
    }
  }
}
