/** Stable insertion sort by a strict order, and the uniqueness of strictly sorted sequences. */
module Sorting {

  function Insert<T>(x: T, s: seq<T>, less: (T, T) -> bool): seq<T> {
    if |s| == 0 then [x]
    else if less(s[0], x) then [s[0]] + Insert(x, s[1..], less)
    else [x] + s
  }

  function Sort<T>(s: seq<T>, less: (T, T) -> bool): seq<T> {
    if |s| == 0 then [] else Insert(s[0], Sort(s[1..], less), less)
  }

  ghost predicate InOrder<T>(s: seq<T>, less: (T, T) -> bool, i: int, j: int) {
    0 <= i < j < |s| ==> less(s[i], s[j])
  }

  ghost predicate Sorted<T(!new)>(s: seq<T>, less: (T, T) -> bool) {
    forall i, j :: InOrder(s, less, i, j)
  }

  ghost predicate Transits<T>(less: (T, T) -> bool, x: T, y: T, z: T) {
    !less(x, x) && (less(x, y) && less(y, z) ==> less(x, z))
  }

  /** `less` is irreflexive and transitive. */
  ghost predicate StrictOrder<T(!new)>(less: (T, T) -> bool) {
    forall x, y, z :: Transits(less, x, y, z)
  }

  ghost predicate Compares<T>(s: seq<T>, less: (T, T) -> bool, i: int, j: int) {
    0 <= i < |s| && 0 <= j < |s| && i != j ==> less(s[i], s[j]) || less(s[j], s[i])
  }

  /** Any two entries at different places are ordered one way or the other. */
  ghost predicate Comparable<T>(s: seq<T>, less: (T, T) -> bool) {
    forall i, j :: Compares(s, less, i, j)
  }

  lemma {:induction false} InsertKeepsElements<T>(x: T, s: seq<T>, less: (T, T) -> bool)
    ensures multiset(Insert(x, s, less)) == multiset(s) + multiset{x}
  {
    if |s| > 0 && less(s[0], x) {
      InsertKeepsElements(x, s[1..], less);
      assert s == [s[0]] + s[1..];
    }
  }

  lemma {:induction false} SortKeepsElements<T>(s: seq<T>, less: (T, T) -> bool)
    ensures multiset(Sort(s, less)) == multiset(s)
  {
    if |s| > 0 {
      SortKeepsElements(s[1..], less);
      InsertKeepsElements(s[0], Sort(s[1..], less), less);
      assert s == [s[0]] + s[1..];
    }
  }

  lemma {:induction false} InsertSorted<T(!new)>(x: T, s: seq<T>, less: (T, T) -> bool)
    requires StrictOrder(less) && Sorted(s, less)
    requires forall y :: y in s ==> less(x, y) || less(y, x)
    ensures Sorted(Insert(x, s, less), less)
  {
    if |s| > 0 {
      var tail := s[1..];
      assert s == [s[0]] + tail;
      forall i, j ensures InOrder(tail, less, i, j) { assert InOrder(s, less, i + 1, j + 1); }
      if less(s[0], x) {
        InsertSorted(x, tail, less);
        InsertKeepsElements(x, tail, less);
        forall y | y in Insert(x, tail, less) ensures less(s[0], y) {
          assert y in multiset(Insert(x, tail, less));
          if y in tail {
            var k :| 0 <= k < |tail| && tail[k] == y;
            assert InOrder(s, less, 0, k + 1);
          }
        }
        ConsSorted(s[0], Insert(x, tail, less), less);
      } else {
        forall y | y in s ensures less(x, y) {
          var k :| 0 <= k < |s| && s[k] == y;
          assert s[0] in s && InOrder(s, less, 0, k) && Transits(less, x, s[0], y);
        }
        ConsSorted(x, s, less);
      }
    }
  }

  lemma ConsSorted<T(!new)>(x: T, s: seq<T>, less: (T, T) -> bool)
    requires Sorted(s, less) && forall y :: y in s ==> less(x, y)
    ensures Sorted([x] + s, less)
  {
    forall i, j ensures InOrder([x] + s, less, i, j) { assert InOrder(s, less, i - 1, j - 1); }
  }

  /** Sorting comparable entries gives a strictly sorted arrangement of them. */
  lemma {:induction false} SortSorts<T(!new)>(s: seq<T>, less: (T, T) -> bool)
    requires StrictOrder(less) && Comparable(s, less)
    ensures Sorted(Sort(s, less), less) && multiset(Sort(s, less)) == multiset(s)
  {
    SortKeepsElements(s, less);
    if |s| > 0 {
      var tail := s[1..];
      forall i, j ensures Compares(tail, less, i, j) { assert Compares(s, less, i + 1, j + 1); }
      SortSorts(tail, less);
      SortKeepsElements(tail, less);
      forall y | y in Sort(tail, less) ensures less(s[0], y) || less(y, s[0]) {
        assert y in multiset(Sort(tail, less));
        var k :| 0 <= k < |tail| && tail[k] == y;
        assert Compares(s, less, 0, k + 1);
      }
      InsertSorted(s[0], Sort(tail, less), less);
    }
  }

  /** Strictly sorted sequences with the same elements are equal. */
  lemma {:induction false} SortedUnique<T(!new)>(a: seq<T>, b: seq<T>, less: (T, T) -> bool)
    requires StrictOrder(less) && Sorted(a, less) && Sorted(b, less)
    requires forall x :: x in a <==> x in b
    ensures a == b
    decreases |a|
  {
    if |a| == 0 {
      HasElement(b);
    } else {
      assert a[0] in b;
      SameHead(a, b, less);
      SameTail(a, b, less);
      SortedTail(a, less);
      SortedTail(b, less);
      SortedUnique(a[1..], b[1..], less);
      assert a == [a[0]] + a[1..] && b == [b[0]] + b[1..];
    }
  }

  lemma HasElement<T>(s: seq<T>)
    ensures |s| > 0 ==> exists x :: x in s
  {
    if |s| > 0 { assert s[0] in s; }
  }

  lemma SortedTail<T(!new)>(s: seq<T>, less: (T, T) -> bool)
    requires Sorted(s, less) && |s| > 0
    ensures Sorted(s[1..], less)
  {
    forall i, j ensures InOrder(s[1..], less, i, j) { assert InOrder(s, less, i + 1, j + 1); }
  }

  lemma SameHead<T(!new)>(a: seq<T>, b: seq<T>, less: (T, T) -> bool)
    requires StrictOrder(less) && Sorted(a, less) && Sorted(b, less) && |a| > 0 && |b| > 0
    requires a[0] in b && b[0] in a
    ensures a[0] == b[0]
  {
    var i :| 0 <= i < |b| && b[i] == a[0];
    var j :| 0 <= j < |a| && a[j] == b[0];
    assert InOrder(b, less, 0, i) && InOrder(a, less, 0, j);
    assert Transits(less, a[0], b[0], a[0]);
  }

  lemma SameTail<T(!new)>(a: seq<T>, b: seq<T>, less: (T, T) -> bool)
    requires StrictOrder(less) && Sorted(a, less) && Sorted(b, less) && |a| > 0 && |b| > 0 && a[0] == b[0]
    requires forall x :: x in a <==> x in b
    ensures forall x :: x in a[1..] <==> x in b[1..]
  {
    forall x ensures x in a[1..] <==> x in b[1..] {
      TailElements(a, less, x);
      TailElements(b, less, x);
    }
  }

  lemma TailElements<T(!new)>(s: seq<T>, less: (T, T) -> bool, x: T)
    requires StrictOrder(less) && Sorted(s, less) && |s| > 0
    ensures x in s[1..] <==> x in s && x != s[0]
  {
    assert s == [s[0]] + s[1..];
    if x in s[1..] {
      var k :| 0 <= k < |s[1..]| && s[1..][k] == x;
      assert InOrder(s, less, 0, k + 1) && Transits(less, x, x, x);
    }
  }

  /** A strictly sorted sequence is its own sort. */
  lemma {:induction false} SortOfSorted<T(!new)>(s: seq<T>, less: (T, T) -> bool)
    requires StrictOrder(less) && Sorted(s, less)
    ensures Sort(s, less) == s
  {
    if |s| > 0 {
      SortedTail(s, less);
      SortOfSorted(s[1..], less);
      if |s| > 1 { assert InOrder(s, less, 0, 1) && Transits(less, s[0], s[1], s[0]); }
      assert s == [s[0]] + s[1..];
    }
  }
}
