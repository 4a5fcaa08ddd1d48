/** Insertion sort under any order; the ring's points and the latency samples are both sorted by it. */
module Sorting {

  /** A total order, ties allowed. */
  ghost predicate Orders<T(!new)>(le: (T, T) -> bool) {
    && (forall a, b :: le(a, b) || le(b, a))
    && (forall a, b, c :: le(a, b) && le(b, c) ==> le(a, c))
  }

  predicate InOrder<T>(le: (T, T) -> bool, s: seq<T>) {
    forall i, j :: 0 <= i < j < |s| ==> le(s[i], s[j])
  }

  function Insert<T>(le: (T, T) -> bool, s: seq<T>, x: T): (r: seq<T>)
    ensures multiset(r) == multiset(s) + multiset{x}
  {
    if s == [] then [x]
    else
      assert s == s[..|s| - 1] + [s[|s| - 1]];
      if le(s[|s| - 1], x) then s + [x] else Insert(le, s[..|s| - 1], x) + [s[|s| - 1]]
  }

  lemma AppendKeepsOrder<T(!new)>(le: (T, T) -> bool, s: seq<T>, x: T)
    requires Orders(le) && InOrder(le, s)
    requires s == [] || le(s[|s| - 1], x) || forall i :: 0 <= i < |s| ==> le(s[i], x)
    ensures InOrder(le, s + [x])
  {
  }

  lemma {:induction false} InsertKeepsOrder<T(!new)>(le: (T, T) -> bool, s: seq<T>, x: T)
    requires Orders(le) && InOrder(le, s)
    ensures InOrder(le, Insert(le, s, x))
  {
    if s == [] {
    } else {
      var init, last := s[..|s| - 1], s[|s| - 1];
      if le(last, x) {
        AppendKeepsOrder(le, s, x);
      } else {
        InsertKeepsOrder(le, init, x);
        var r := Insert(le, init, x);
        forall i | 0 <= i < |r| ensures le(r[i], last) {
          assert r[i] in multiset(r);
          assert r[i] in init || r[i] == x;
        }
        AppendKeepsOrder(le, r, last);
      }
    }
  }

  function Sort<T>(le: (T, T) -> bool, s: seq<T>): (r: seq<T>)
    ensures multiset(r) == multiset(s) && |r| == |s|
  {
    if s == [] then []
    else
      assert s == s[..|s| - 1] + [s[|s| - 1]];
      var r := Insert(le, Sort(le, s[..|s| - 1]), s[|s| - 1]);
      assert |multiset(r)| == |multiset(s)|;
      r
  }

  lemma {:induction false} SortSorts<T(!new)>(le: (T, T) -> bool, s: seq<T>)
    requires Orders(le)
    ensures InOrder(le, Sort(le, s))
  {
    if s == [] {
    } else {
      SortSorts(le, s[..|s| - 1]);
      InsertKeepsOrder(le, Sort(le, s[..|s| - 1]), s[|s| - 1]);
    }
  }
}
