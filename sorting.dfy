/** The `stream().sorted(Comparator.comparing(...getCreated))` step, as an insertion sort on a key. */
module Sorting {

  predicate SortedBy<T>(s: seq<T>, key: T -> int) {
    forall i, j :: 0 <= i < j < |s| ==> key(s[i]) <= key(s[j])
  }

  predicate AllAtLeast<T>(s: seq<T>, key: T -> int, b: int) {
    forall i :: 0 <= i < |s| ==> b <= key(s[i])
  }

  /** x placed before the first element whose key is not smaller. */
  function InsertBy<T>(x: T, s: seq<T>, key: T -> int): (r: seq<T>)
    ensures multiset(r) == multiset(s) + multiset{x}
    ensures |r| == |s| + 1
  {
    if s == [] || key(x) <= key(s[0]) then [x] + s
    else
      assert s == [s[0]] + s[1..];
      [s[0]] + InsertBy(x, s[1..], key)
  }

  lemma {:induction false} InsertByBound<T>(x: T, s: seq<T>, key: T -> int, b: int)
    requires AllAtLeast(s, key, b) && b <= key(x)
    ensures AllAtLeast(InsertBy(x, s, key), key, b)
  {
    if s != [] && key(x) > key(s[0]) {
      InsertByBound(x, s[1..], key, b);
    }
  }

  lemma {:induction false} InsertBySorted<T>(x: T, s: seq<T>, key: T -> int)
    requires SortedBy(s, key)
    ensures SortedBy(InsertBy(x, s, key), key)
  {
    if s != [] && key(x) > key(s[0]) {
      var t := s[1..];
      InsertBySorted(x, t, key);
      assert AllAtLeast(t, key, key(s[0]));
      InsertByBound(x, t, key, key(s[0]));
      var r := InsertBy(x, t, key);
      assert InsertBy(x, s, key) == [s[0]] + r;
      forall i, j | 0 <= i < j < |r| + 1
        ensures key(([s[0]] + r)[i]) <= key(([s[0]] + r)[j])
      {
        if i > 0 {
          assert ([s[0]] + r)[i] == r[i - 1];
        }
        assert ([s[0]] + r)[j] == r[j - 1];
      }
    } else if s != [] {
      forall i, j | 0 <= i < j < |s| + 1
        ensures key(([x] + s)[i]) <= key(([x] + s)[j])
      {
        assert ([x] + s)[j] == s[j - 1];
        if i > 0 {
          assert ([x] + s)[i] == s[i - 1];
        }
      }
    }
  }

  /** A sorted permutation of s (stable: equal keys keep their relative order). */
  function SortBy<T>(s: seq<T>, key: T -> int): (r: seq<T>)
    ensures multiset(r) == multiset(s)
    ensures |r| == |s|
  {
    if s == [] then []
    else
      assert s == [s[0]] + s[1..];
      InsertBy(s[0], SortBy(s[1..], key), key)
  }

  lemma {:induction false} SortBySorted<T>(s: seq<T>, key: T -> int)
    ensures SortedBy(SortBy(s, key), key)
  {
    if s != [] {
      SortBySorted(s[1..], key);
      InsertBySorted(s[0], SortBy(s[1..], key), key);
    }
  }
}
