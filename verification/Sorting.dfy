/** A stable sort by a strict order, and sequences that the order determines. */
module Sorting {

  ghost predicate StrictOrder<T(!new)>(less: (T, T) -> bool) {
    (forall x :: !less(x, x)) && forall x, y, z :: less(x, y) && less(y, z) ==> less(x, z)
  }

  /** Strictly ascending. */
  predicate Ascends<T(!new)>(s: seq<T>, less: (T, T) -> bool) {
    forall i, j :: 0 <= i < j < |s| ==> less(s[i], s[j])
  }

  /** Any two positions can be told apart by the order. */
  predicate Apart<T(!new)>(s: seq<T>, less: (T, T) -> bool) {
    forall i, j :: 0 <= i < j < |s| ==> less(s[i], s[j]) || less(s[j], s[i])
  }

  /** Insert after everything that is not larger. */
  function Insert<T(!new)>(s: seq<T>, x: T, less: (T, T) -> bool): (r: seq<T>)
    ensures forall y :: y in r <==> y in s || y == x
    ensures multiset(r) == multiset(s) + multiset{x}
    ensures |r| == |s| + 1
  {
    if s == [] || !less(x, s[|s| - 1]) then s + [x]
    else
      assert s == s[..|s| - 1] + [s[|s| - 1]];
      Insert(s[..|s| - 1], x, less) + [s[|s| - 1]]
  }

  function Sort<T(!new)>(s: seq<T>, less: (T, T) -> bool): (r: seq<T>)
    ensures forall y :: y in r <==> y in s
    ensures multiset(r) == multiset(s)
    ensures |r| == |s|
  {
    if s == [] then []
    else
      assert s == s[..|s| - 1] + [s[|s| - 1]];
      Insert(Sort(s[..|s| - 1], less), s[|s| - 1], less)
  }

  lemma {:induction false} InsertAscends<T(!new)>(s: seq<T>, x: T, less: (T, T) -> bool)
    requires StrictOrder(less) && Ascends(s, less) && forall y :: y in s ==> less(y, x) || less(x, y)
    ensures Ascends(Insert(s, x, less), less)
  {
    if s != [] {
      var n := |s| - 1;
      if less(x, s[n]) {
        InsertAscends(s[..n], x, less);
        forall y | y in Insert(s[..n], x, less)
          ensures less(y, s[n])
        {
          if y != x {
            var i :| 0 <= i < n && s[i] == y;
          }
        }
      } else {
        forall i | 0 <= i < n
          ensures less(s[i], x)
        {
          assert less(s[i], s[n]) && less(s[n], x);
        }
      }
    }
  }

  /** Sorting items that the order tells apart makes them strictly ascend. */
  lemma {:induction false} SortAscends<T(!new)>(s: seq<T>, less: (T, T) -> bool)
    requires StrictOrder(less) && Apart(s, less)
    ensures Ascends(Sort(s, less), less)
  {
    if s != [] {
      var n := |s| - 1;
      SortAscends(s[..n], less);
      forall y | y in Sort(s[..n], less)
        ensures less(y, s[n]) || less(s[n], y)
      {
        var i :| 0 <= i < n && s[i] == y;
      }
      InsertAscends(Sort(s[..n], less), s[n], less);
    }
  }

  /** No later item is smaller than an earlier one. */
  predicate NeverDescends<T(!new)>(s: seq<T>, less: (T, T) -> bool) {
    forall i, j :: 0 <= i < j < |s| ==> !less(s[j], s[i])
  }

  /** Items that are not smaller than each other in a row are so in the end. */
  ghost predicate WeakOrder<T(!new)>(less: (T, T) -> bool) {
    StrictOrder(less) && forall x, y, z :: !less(y, x) && !less(z, y) ==> !less(z, x)
  }

  lemma {:induction false} InsertNeverDescends<T(!new)>(s: seq<T>, x: T, less: (T, T) -> bool)
    requires WeakOrder(less) && NeverDescends(s, less)
    ensures NeverDescends(Insert(s, x, less), less)
  {
    if s != [] {
      var n := |s| - 1;
      if less(x, s[n]) {
        InsertNeverDescends(s[..n], x, less);
        forall y | y in Insert(s[..n], x, less)
          ensures !less(s[n], y)
        {
          if y == x {
            assert !less(x, x);
          } else {
            var i :| 0 <= i < n && s[i] == y;
          }
        }
      } else {
        forall i | 0 <= i < n
          ensures !less(x, s[i])
        {
          assert !less(s[n], s[i]);
        }
      }
    }
  }

  lemma {:induction false} SortNeverDescends<T(!new)>(s: seq<T>, less: (T, T) -> bool)
    requires WeakOrder(less)
    ensures NeverDescends(Sort(s, less), less)
  {
    if s != [] {
      SortNeverDescends(s[..|s| - 1], less);
      InsertNeverDescends(Sort(s[..|s| - 1], less), s[|s| - 1], less);
    }
  }

  /** Sorting what ascends changes nothing. */
  lemma {:induction false} SortUnchanged<T(!new)>(s: seq<T>, less: (T, T) -> bool)
    requires StrictOrder(less) && Ascends(s, less)
    ensures Sort(s, less) == s
  {
    if s != [] {
      var n := |s| - 1;
      SortUnchanged(s[..n], less);
      if n > 0 {
        assert less(s[n - 1], s[n]) && !less(s[n - 1], s[n - 1]);
      }
    }
  }

  lemma TailMember<T(!new)>(a: seq<T>, x: T, less: (T, T) -> bool)
    requires StrictOrder(less) && Ascends(a, less) && a != []
    ensures x in a[1..] <==> x in a && x != a[0]
  {
    if x in a && x != a[0] {
      var i :| 0 <= i < |a| && a[i] == x;
      assert a[1..][i - 1] == x;
    }
    if x in a[1..] {
      var i :| 0 <= i < |a| - 1 && a[1..][i] == x;
      assert a[i + 1] == x;
    }
  }

  /** Strictly ascending sequences with the same members are equal. */
  lemma {:induction false} AscendsUnique<T(!new)>(a: seq<T>, b: seq<T>, less: (T, T) -> bool)
    requires StrictOrder(less) && Ascends(a, less) && Ascends(b, less) && forall x :: x in a <==> x in b
    ensures a == b
  {
    assert |a| > 0 ==> a[0] in b;
    assert |b| > 0 ==> b[0] in a;
    if a != [] && b != [] {
      var i :| 0 <= i < |b| && b[i] == a[0];
      var j :| 0 <= j < |a| && a[j] == b[0];
      assert a[0] == b[0];
      forall x
        ensures x in a[1..] <==> x in b[1..]
      {
        TailMember(a, x, less);
        TailMember(b, x, less);
      }
      AscendsUnique(a[1..], b[1..], less);
      assert a == [a[0]] + a[1..] && b == [b[0]] + b[1..];
    }
  }
}
