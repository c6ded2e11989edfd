/** Python's `list.sort` and `sorted`, as a stable insertion sort over an arbitrary "comes no later than" test. */
module Sorting {

  ghost predicate TotalPreorder<T(!new)>(le: (T, T) -> bool) {
    && (forall a, b :: le(a, b) || le(b, a))
    && (forall a, b, c :: le(a, b) && le(b, c) ==> le(a, c))
  }

  ghost predicate SortedBy<T>(le: (T, T) -> bool, xs: seq<T>) {
    forall i, j :: 0 <= i < j < |xs| ==> le(xs[i], xs[j])
  }

  /** Puts `x` in front of the first element it may precede: among equals, `x` comes first. */
  function Insert<T>(le: (T, T) -> bool, x: T, ys: seq<T>): (r: seq<T>)
    ensures |r| == |ys| + 1
  {
    if ys == [] || le(x, ys[0]) then [x] + ys else [ys[0]] + Insert(le, x, ys[1..])
  }

  function SortBy<T>(le: (T, T) -> bool, xs: seq<T>): (r: seq<T>)
    ensures |r| == |xs|
  {
    if xs == [] then [] else Insert(le, xs[0], SortBy(le, xs[1..]))
  }

  lemma {:induction false} InsertMultiset<T>(le: (T, T) -> bool, x: T, ys: seq<T>)
    ensures multiset(Insert(le, x, ys)) == multiset{x} + multiset(ys)
  {
    if ys == [] || le(x, ys[0]) {
    } else {
      InsertMultiset(le, x, ys[1..]);
      assert ys == [ys[0]] + ys[1..];
    }
  }

  lemma InsertMember<T>(le: (T, T) -> bool, x: T, ys: seq<T>, z: T)
    requires z in Insert(le, x, ys)
    ensures z == x || z in ys
  {
    InsertMultiset(le, x, ys);
    assert z in multiset(Insert(le, x, ys));
  }

  lemma {:induction false} InsertKeepsOrder<T(!new)>(le: (T, T) -> bool, x: T, ys: seq<T>)
    requires TotalPreorder(le) && SortedBy(le, ys)
    ensures SortedBy(le, Insert(le, x, ys))
  {
    if ys == [] {
    } else if le(x, ys[0]) {
      forall j | 0 <= j < |ys| ensures le(x, ys[j]) {
        assert j == 0 || le(ys[0], ys[j]);
      }
    } else {
      var rest := Insert(le, x, ys[1..]);
      InsertKeepsOrder(le, x, ys[1..]);
      forall j | 0 <= j < |rest| ensures le(ys[0], rest[j]) {
        InsertMember(le, x, ys[1..], rest[j]);
        if rest[j] != x {
          var k :| 0 <= k < |ys[1..]| && ys[1..][k] == rest[j];
          assert le(ys[0], ys[k + 1]);
        }
      }
    }
  }

  /** Sorting orders the list and neither loses nor invents an element. */
  lemma {:induction false} SortIsSortedPermutation<T(!new)>(le: (T, T) -> bool, xs: seq<T>)
    requires TotalPreorder(le)
    ensures SortedBy(le, SortBy(le, xs))
    ensures multiset(SortBy(le, xs)) == multiset(xs)
  {
    if xs != [] {
      SortIsSortedPermutation(le, xs[1..]);
      InsertKeepsOrder(le, xs[0], SortBy(le, xs[1..]));
      InsertMultiset(le, xs[0], SortBy(le, xs[1..]));
      assert xs == [xs[0]] + xs[1..];
    }
  }

  lemma SortSameMembers<T(!new)>(le: (T, T) -> bool, xs: seq<T>, x: T)
    requires TotalPreorder(le)
    ensures x in SortBy(le, xs) <==> x in xs
  {
    SortIsSortedPermutation(le, xs);
    assert x in multiset(SortBy(le, xs)) <==> x in multiset(xs);
  }

  /** Position `i` holds the earliest of the least elements. */
  ghost predicate EarliestLeast<T>(le: (T, T) -> bool, xs: seq<T>, i: nat)
    requires i < |xs|
  {
    && (forall j :: 0 <= j < |xs| ==> le(xs[i], xs[j]))
    && (forall j :: 0 <= j < i ==> !le(xs[j], xs[i]))
  }

  /** Stability, as far as the head of the list shows it: ties go to the element listed first. */
  lemma {:induction false} SortHead<T(!new)>(le: (T, T) -> bool, xs: seq<T>) returns (i: nat)
    requires TotalPreorder(le) && xs != []
    ensures i < |xs| && SortBy(le, xs)[0] == xs[i] && EarliestLeast(le, xs, i)
  {
    if |xs| == 1 {
      i := 0;
    } else {
      var k := SortHead(le, xs[1..]);
      if le(xs[0], xs[k + 1]) {
        i := 0;
        forall j | 0 <= j < |xs| ensures le(xs[0], xs[j]) {
          if j > 0 {
            assert le(xs[1..][k], xs[1..][j - 1]);
          }
        }
      } else {
        i := k + 1;
        forall j | 0 <= j < |xs| ensures le(xs[i], xs[j]) {
          if j > 0 {
            assert le(xs[1..][k], xs[1..][j - 1]);
          }
        }
        forall j | 0 <= j < i ensures !le(xs[j], xs[i]) {
          if j > 0 {
            assert !le(xs[1..][j - 1], xs[1..][k]);
          }
        }
      }
    }
  }

  /** A list that is already in order is left alone. */
  lemma {:induction false} SortOfSorted<T>(le: (T, T) -> bool, xs: seq<T>)
    requires SortedBy(le, xs)
    ensures SortBy(le, xs) == xs
  {
    if xs != [] {
      SortOfSorted(le, xs[1..]);
    }
  }
}
