/** sort.Slice: orders a slice in place by a "less" function, in no particular order among equals. */
module Sorting {
  /** What sort.Slice asks of its function: "not less" is a total preorder. */
  ghost predicate StrictWeak<T(!new)>(less: (T, T) -> bool) {
    && (forall x, y :: less(x, y) ==> !less(y, x))
    && (forall x, y, z :: !less(y, x) && !less(z, y) ==> !less(z, x))
  }

  predicate SortedBy<T>(less: (T, T) -> bool, s: seq<T>) {
    forall i, j :: 0 <= i < j < |s| ==> !less(s[j], s[i])
  }

  /** s is a possible outcome of sorting t. */
  predicate IsSorting<T(==)>(less: (T, T) -> bool, s: seq<T>, t: seq<T>) {
    SortedBy(less, s) && multiset(s) == multiset(t)
  }

  lemma PermutationMembers<T>(s: seq<T>, t: seq<T>)
    requires multiset(s) == multiset(t)
    ensures |s| == |t|
    ensures forall x :: x in s <==> x in t
  {
    assert |s| == |multiset(s)| && |t| == |multiset(t)|;
    forall x ensures x in s <==> x in t {
      assert x in s <==> x in multiset(s);
      assert x in t <==> x in multiset(t);
    }
  }

  /** Every sequence can be sorted. */
  lemma {:induction false} SortingExists<T(!new)>(less: (T, T) -> bool, t: seq<T>) returns (s: seq<T>)
    requires StrictWeak(less)
    ensures IsSorting(less, s, t)
  {
    if t == [] {
      return [];
    }
    var front := SortingExists(less, t[..|t| - 1]);
    s := Inserted(less, front, t[|t| - 1]);
    assert t == t[..|t| - 1] + [t[|t| - 1]];
  }

  lemma Inserted<T(!new)>(less: (T, T) -> bool, s: seq<T>, x: T) returns (longer: seq<T>)
    requires StrictWeak(less) && SortedBy(less, s)
    ensures IsSorting(less, longer, s + [x])
  {
    var i := |s|;
    while i > 0 && less(x, s[i - 1])
      invariant 0 <= i <= |s| && forall j :: i <= j < |s| ==> less(x, s[j])
    {
      i := i - 1;
    }
    forall j | 0 <= j < i ensures !less(x, s[j]) {
      assert !less(s[i - 1], s[j]);
    }
    longer := s[..i] + [x] + s[i..];
    InsertedIsSorted(less, s, x, i);
    assert s == s[..i] + s[i..];
    assert multiset(longer) == multiset(s[..i]) + multiset{x} + multiset(s[i..]);
  }

  lemma InsertedIsSorted<T>(less: (T, T) -> bool, s: seq<T>, x: T, i: nat)
    requires SortedBy(less, s) && i <= |s|
    requires (forall j :: 0 <= j < i ==> !less(x, s[j])) && (forall j :: i <= j < |s| ==> !less(s[j], x))
    ensures SortedBy(less, s[..i] + [x] + s[i..])
  {
    var longer := s[..i] + [x] + s[i..];
    forall a, b | 0 <= a < b < |longer| ensures !less(longer[b], longer[a]) {
      if a != i && b != i {
        var a', b' := if a < i then a else a - 1, if b < i then b else b - 1;
        assert longer[a] == s[a'] && longer[b] == s[b'] && a' < b';
      }
    }
  }

  /** Equal elements may change places. */
  lemma SwapEquals<T(!new)>(less: (T, T) -> bool, s: seq<T>, i: nat, j: nat)
    requires StrictWeak(less) && SortedBy(less, s) && i < j < |s| && !less(s[i], s[j])
    ensures IsSorting(less, s[i := s[j]][j := s[i]], s)
  {
    var r := s[i := s[j]][j := s[i]];
    assert !less(s[j], s[i]);
    forall a, b | 0 <= a < b < |r| ensures !less(r[b], r[a]) {
      assert a < i ==> !less(s[i], s[a]) && !less(s[j], s[a]);
      assert b > j ==> !less(s[b], s[i]) && !less(s[b], s[j]);
      if i < a {
        assert !less(s[a], s[i]);
        assert a < j ==> !less(s[j], s[a]);
      }
      if b < j {
        assert !less(s[j], s[b]);
        assert i < b ==> !less(s[b], s[i]);
      }
    }
  }

  method Swap<T>(a: array<T>, i: nat, j: nat)
    requires i < a.Length && j < a.Length
    modifies a
    ensures a[..] == old(a[..])[i := old(a[j])][j := old(a[i])]
    ensures multiset(a[..]) == multiset(old(a[..]))
  {
    a[i], a[j] := a[j], a[i];
  }

  /** Everything before n is sorted, except that the element at hole may still have to move left. */
  ghost predicate SortedButOne<T>(less: (T, T) -> bool, s: seq<T>, n: nat, hole: nat)
    requires hole < n <= |s|
  {
    && (forall i, j :: 0 <= i < j < n && i != hole && j != hole ==> !less(s[j], s[i]))
    && (forall j :: hole < j < n ==> !less(s[j], s[hole]))
  }

  method SortSlice<T(!new)>(a: array<T>, less: (T, T) -> bool)
    requires StrictWeak(less)
    modifies a
    ensures SortedBy(less, a[..])
    ensures multiset(a[..]) == multiset(old(a[..]))
  {
    for n := 0 to a.Length
      invariant SortedBy(less, a[..n])
      invariant multiset(a[..]) == multiset(old(a[..]))
    {
      var j := n;
      assert SortedButOne(less, a[..], n + 1, j);
      while j > 0 && less(a[j], a[j - 1])
        invariant 0 <= j <= n
        invariant SortedButOne(less, a[..], n + 1, j)
        invariant multiset(a[..]) == multiset(old(a[..]))
      {
        Swap(a, j - 1, j);
        j := j - 1;
      }
      assert SortedBy(less, a[..n + 1]);
    }
    assert a[..] == a[..a.Length];
  }
}
