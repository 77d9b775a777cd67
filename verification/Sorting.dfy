/** Python's stable `sorted` with a numeric key. */
module Sorting {

  ghost predicate InOrder<T>(s: seq<T>, key: T -> real) {
    forall i, j :: 0 <= i < j < |s| ==> key(s[i]) <= key(s[j])
  }

  /** Insertion after every element whose key is not larger. */
  function Insert<T>(s: seq<T>, x: T, key: T -> real): (r: seq<T>)
    ensures multiset(r) == multiset(s) + multiset{x}
  {
    if s == [] then [x]
    else
      var n := |s| - 1;
      assert s == s[..n] + [s[n]];
      if key(s[n]) <= key(x) then s + [x] else Insert(s[..n], x, key) + [s[n]]
  }

  function StableSort<T>(s: seq<T>, key: T -> real): (r: seq<T>)
    ensures multiset(r) == multiset(s) && |r| == |s|
  {
    if s == [] then []
    else
      assert s == s[..|s| - 1] + [s[|s| - 1]];
      var r := Insert(StableSort(s[..|s| - 1], key), s[|s| - 1], key);
      assert |r| == |multiset(r)|;
      r
  }

  lemma StableSortMembers<T>(s: seq<T>, key: T -> real, x: T)
    ensures x in StableSort(s, key) <==> x in s
  {
    assert x in StableSort(s, key) <==> x in multiset(StableSort(s, key));
    assert x in s <==> x in multiset(s);
  }

  lemma AppendInOrder<T>(s: seq<T>, x: T, key: T -> real)
    requires InOrder(s, key) && forall y :: y in s ==> key(y) <= key(x)
    ensures InOrder(s + [x], key)
  {
  }

  lemma {:induction false} InsertInOrder<T>(s: seq<T>, x: T, key: T -> real)
    requires InOrder(s, key)
    ensures InOrder(Insert(s, x, key), key)
  {
    if s != [] {
      var n := |s| - 1;
      if key(s[n]) <= key(x) {
        forall y | y in s
          ensures key(y) <= key(x)
        {
          var i :| 0 <= i < |s| && s[i] == y;
          assert i == n || key(s[i]) <= key(s[n]);
        }
        AppendInOrder(s, x, key);
      } else {
        InsertInOrder(s[..n], x, key);
        forall y | y in Insert(s[..n], x, key)
          ensures key(y) <= key(s[n])
        {
          assert y in multiset(Insert(s[..n], x, key));
          assert y in s[..n] || y == x;
        }
        AppendInOrder(Insert(s[..n], x, key), s[n], key);
      }
    }
  }

  lemma {:induction false} StableSortInOrder<T>(s: seq<T>, key: T -> real)
    ensures InOrder(StableSort(s, key), key)
  {
    if s != [] {
      StableSortInOrder(s[..|s| - 1], key);
      InsertInOrder(StableSort(s[..|s| - 1], key), s[|s| - 1], key);
    }
  }

  // ---------------------------------------------------------------- stability

  /** The elements with that key, in their order. */
  function WithKey<T>(s: seq<T>, key: T -> real, k: real): seq<T> {
    if s == [] then []
    else
      var n := |s| - 1;
      WithKey(s[..n], key, k) + if key(s[n]) == k then [s[n]] else []
  }

  lemma WithKeySnoc<T>(s: seq<T>, x: T, key: T -> real, k: real)
    ensures WithKey(s + [x], key, k) == if key(x) == k then WithKey(s, key, k) + [x] else WithKey(s, key, k)
  {
    assert (s + [x])[..|s|] == s;
  }

  lemma {:induction false} InsertIsStable<T>(s: seq<T>, x: T, key: T -> real, k: real)
    ensures WithKey(Insert(s, x, key), key, k) == WithKey(s + [x], key, k)
  {
    hide WithKey;
    if s == [] {
      assert Insert(s, x, key) == s + [x];
    } else {
      var n := |s| - 1;
      if key(s[n]) > key(x) {
        InsertIsStable(s[..n], x, key, k);
        WithKeySnoc(Insert(s[..n], x, key), s[n], key, k);
        WithKeySnoc(s[..n], x, key, k);
        WithKeySnoc(s[..n], s[n], key, k);
        WithKeySnoc(s, x, key, k);
        assert s[..n] + [s[n]] == s;
      }
    }
  }

  /** Elements with equal keys keep their order. */
  lemma {:induction false} StableSortIsStable<T>(s: seq<T>, key: T -> real, k: real)
    ensures WithKey(StableSort(s, key), key, k) == WithKey(s, key, k)
  {
    if s != [] {
      var front, x := s[..|s| - 1], s[|s| - 1];
      StableSortIsStable(front, key, k);
      InsertIsStable(StableSort(front, key), x, key, k);
      WithKeySnoc(StableSort(front, key), x, key, k);
    }
  }

  // ---------------------------------------------------------------- a sorted list

  /** An element that belongs at the end is put at the end of a list that is already sorted. */
  lemma StableSortSnoc<T>(front: seq<T>, x: T, key: T -> real)
    requires StableSort(front, key) == front
    requires front == [] || key(front[|front| - 1]) <= key(x)
    ensures StableSort(front + [x], key) == front + [x]
  {
    assert (front + [x])[..|front|] == front;
  }

  lemma {:induction false} StableSortIdle<T>(s: seq<T>, key: T -> real)
    requires InOrder(s, key)
    ensures StableSort(s, key) == s
  {
    hide Insert, StableSort;
    if s == [] {
      SortNothing(s, key);
    } else {
      var front, x := s[..|s| - 1], s[|s| - 1];
      StableSortIdle(front, key);
      StableSortSnoc(front, x, key);
      assert s == front + [x];
    }
  }

  lemma SortNothing<T>(s: seq<T>, key: T -> real)
    requires s == []
    ensures StableSort(s, key) == s
  {
  }
}
