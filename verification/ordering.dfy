/** `OrderByDescending` on a date key, as the services use it for
    listings: an insertion sort whose result is a permutation of its input
    with later keys first. Rows with equal keys may come out in either
    order. */
module Ordering {
  import opened Calendar

  /** `s` lists later keys first. */
  predicate LatestFirst<T>(s: seq<T>, key: T -> DateTime)
  {
    forall i, j :: 0 <= i < j < |s| ==> !Before(key(s[i]), key(s[j]))
  }

  function InsertLatestFirst<T>(x: T, s: seq<T>, key: T -> DateTime): (r: seq<T>)
    ensures multiset(r) == multiset(s) + multiset{x}
  {
    if s == [] then [x]
    else if !Before(key(x), key(s[0])) then [x] + s
    else
      assert s == [s[0]] + s[1..];
      [s[0]] + InsertLatestFirst(x, s[1..], key)
  }

  function SortLatestFirst<T>(s: seq<T>, key: T -> DateTime): (r: seq<T>)
    ensures multiset(r) == multiset(s)
  {
    if s == [] then []
    else
      assert s == [s[0]] + s[1..];
      InsertLatestFirst(s[0], SortLatestFirst(s[1..], key), key)
  }

  lemma {:induction false} InsertKeepsOrder<T>(x: T, s: seq<T>, key: T -> DateTime)
    requires LatestFirst(s, key)
    ensures LatestFirst(InsertLatestFirst(x, s, key), key)
  {
    if s != [] && Before(key(x), key(s[0])) {
      InsertKeepsOrder(x, s[1..], key);
      var r := InsertLatestFirst(x, s[1..], key);
      forall j | 0 < j <= |r| ensures !Before(key(s[0]), key(([s[0]] + r)[j])) {
        var y := r[j - 1];
        assert y in multiset(r);
        if y != x {
          assert y in multiset(s[1..]);
          var k :| 0 <= k < |s[1..]| && s[1..][k] == y;
          assert s[k + 1] == y;
        }
      }
    }
  }

  /** The sort puts later keys first. */
  lemma {:induction false} SortIsLatestFirst<T>(s: seq<T>, key: T -> DateTime)
    ensures LatestFirst(SortLatestFirst(s, key), key)
  {
    if s != [] {
      SortIsLatestFirst(s[1..], key);
      InsertKeepsOrder(s[0], SortLatestFirst(s[1..], key), key);
    }
  }

  /** The sort keeps every row and adds none: same members, same length. */
  lemma SortKeepsRows<T>(s: seq<T>, key: T -> DateTime)
    ensures forall x :: x in SortLatestFirst(s, key) <==> x in s
    ensures |SortLatestFirst(s, key)| == |s|
  {
    var r := SortLatestFirst(s, key);
    assert |r| == |multiset(r)| == |multiset(s)| == |s|;
    forall x ensures x in r <==> x in s {
      assert x in r <==> x in multiset(r);
      assert x in s <==> x in multiset(s);
    }
  }
}
