/** File names and their order under Python's `sorted`. */
module Names {
  import opened Sorting

  type Name = string

  predicate Lt(a: Name, b: Name) {
    b != [] && (a == [] || a[0] < b[0] || (a[0] == b[0] && Lt(a[1..], b[1..])))
  }

  lemma {:induction false} LtIrreflexive(a: Name)
    ensures !Lt(a, a)
  {
    if a != [] {
      LtIrreflexive(a[1..]);
    }
  }

  lemma {:induction false} LtTransitive(a: Name, b: Name, c: Name)
    requires Lt(a, b) && Lt(b, c)
    ensures Lt(a, c)
  {
    if a != [] && a[0] == b[0] && b[0] == c[0] {
      LtTransitive(a[1..], b[1..], c[1..]);
    }
  }

  lemma {:induction false} LtTotal(a: Name, b: Name)
    ensures a == b || Lt(a, b) || Lt(b, a)
  {
    if a != [] && b != [] && a[0] == b[0] {
      LtTotal(a[1..], b[1..]);
      assert a == [a[0]] + a[1..] && b == [b[0]] + b[1..];
    }
  }

  /** One name comes before another exactly if they agree up to some position where it ends or has the smaller
      character. */
  lemma {:induction false} LtIff(a: Name, b: Name)
    ensures Lt(a, b) <==> exists i :: 0 <= i <= |a| && i < |b| && a[..i] == b[..i] && (i == |a| || a[i] < b[i])
  {
    if a != [] && b != [] && a[0] == b[0] {
      LtIff(a[1..], b[1..]);
      if Lt(a, b) {
        var x, y := a[1..], b[1..];
        var i :| 0 <= i <= |x| && i < |y| && x[..i] == y[..i] && (i == |x| || x[i] < y[i]);
        assert a[..i + 1] == [a[0]] + a[1..][..i] && b[..i + 1] == [b[0]] + b[1..][..i];
      }
      if i :| 0 <= i <= |a| && i < |b| && a[..i] == b[..i] && (i == |a| || a[i] < b[i]) {
        assert i > 0;
        assert a[1..][..i - 1] == a[..i][1..] && b[1..][..i - 1] == b[..i][1..];
      }
    } else if b != [] && (a == [] || a[0] < b[0]) {
      assert a[..0] == b[..0];
    } else {
      forall i | 0 <= i <= |a| && i < |b| && (i == |a| || a[i] < b[i]) ensures a[..i] != b[..i] {
        assert i > 0;
        assert a[..i][0] == a[0] && b[..i][0] == b[0];
      }
    }
  }

  ghost predicate StrictlySorted(names: seq<Name>) {
    forall i, j :: 0 <= i < j < |names| ==> Lt(names[i], names[j])
  }

  ghost predicate Distinct(names: seq<Name>) {
    forall i, j :: 0 <= i < j < |names| ==> names[i] != names[j]
  }

  lemma StrictlySortedIsDistinct(names: seq<Name>)
    requires StrictlySorted(names)
    ensures Distinct(names)
  {
    forall i, j | 0 <= i < j < |names| ensures names[i] != names[j] {
      LtIrreflexive(names[i]);
    }
  }

  lemma DistinctSnoc(names: seq<Name>, n: Name)
    requires Distinct(names) && n !in names
    ensures Distinct(names + [n])
  {
    assert forall i :: 0 <= i < |names| ==> names[i] in names;
  }

  function Ascending(): (Name, Name) -> bool {
    (a: Name, b: Name) => !Lt(b, a)
  }

  lemma AscendingIsTotal()
    ensures TotalPreorder(Ascending())
  {
    forall a, b ensures Ascending()(a, b) || Ascending()(b, a) {
      if Lt(b, a) && Lt(a, b) {
        LtTransitive(a, b, a);
        LtIrreflexive(a);
      }
    }
    forall a, b, c | Ascending()(a, b) && Ascending()(b, c) ensures Ascending()(a, c) {
      if Lt(c, a) {
        LtTotal(a, b);
        LtTotal(b, c);
        if a != b && b != c {
          LtTransitive(a, b, c);
          LtTransitive(a, c, a);
          LtIrreflexive(a);
        }
      }
    }
  }

  /** `sorted` on a list of names. */
  function SortNames(names: seq<Name>): seq<Name> {
    SortBy(Ascending(), names)
  }

  /** Sorting a duplicate-free list of names gives the same names in strictly ascending order. */
  lemma SortNamesStrict(names: seq<Name>)
    requires Distinct(names)
    ensures StrictlySorted(SortNames(names))
    ensures forall n :: n in SortNames(names) <==> n in names
  {
    AscendingIsTotal();
    SortIsSortedPermutation(Ascending(), names);
    forall n ensures n in SortNames(names) <==> n in names {
      SortSameMembers(Ascending(), names, n);
    }
    DistinctFromMultiset(names, SortNames(names));
    var r := SortNames(names);
    forall i, j | 0 <= i < j < |r| ensures Lt(r[i], r[j]) {
      assert Ascending()(r[i], r[j]);
      LtTotal(r[i], r[j]);
    }
  }

  lemma {:induction false} DistinctCounts(names: seq<Name>, n: Name)
    ensures Distinct(names) ==> multiset(names)[n] <= 1
  {
    if names != [] && Distinct(names) {
      var k := |names| - 1;
      DistinctCounts(names[..k], n);
      assert names == names[..k] + [names[k]];
      if names[k] == n {
        assert n !in names[..k];
      }
    }
  }

  /** A permutation of a duplicate-free list is duplicate-free. */
  lemma DistinctFromMultiset(names: seq<Name>, other: seq<Name>)
    requires Distinct(names) && multiset(other) == multiset(names)
    ensures Distinct(other)
  {
    forall i, j | 0 <= i < j < |other| ensures other[i] != other[j] {
      DistinctCounts(names, other[i]);
      assert other == other[..j] + [other[j]] + other[j + 1..];
      assert other[i] in other[..j];
      assert multiset(other)[other[i]] >= multiset(other[..j])[other[i]] >= 1;
    }
  }
}
