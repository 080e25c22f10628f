/** Stable sorting by a strict weak order. */
module Sorting {
  /** Insert behind every element that is not after `x`. */
  function Insert<T>(x: T, s: seq<T>, less: (T, T) -> bool): seq<T>
    decreases s
  {
    if s == [] || less(x, s[0]) then [x] + s else [s[0]] + Insert(x, s[1..], less)
  }

  /** Python's `sorted`: elements that tie keep their order. */
  function Sort<T>(s: seq<T>, less: (T, T) -> bool): (r: seq<T>)
    decreases s
  {
    if s == [] then [] else Insert(s[|s| - 1], Sort(s[..|s| - 1], less), less)
  }

  /** Never both ways, and what is not before the middle is not before the end. */
  ghost predicate WeakOrder<T(!new)>(less: (T, T) -> bool) {
    && (forall a, b :: less(a, b) ==> !less(b, a))
    && (forall a, b, c :: !less(b, a) && !less(c, b) ==> !less(c, a))
  }

  predicate Sorted<T>(s: seq<T>, less: (T, T) -> bool) {
    forall i, j :: 0 <= i < j < |s| ==> !less(s[j], s[i])
  }

  function Times<T(==)>(s: seq<T>, x: T): nat {
    if s == [] then 0 else (if s[0] == x then 1 else 0) + Times(s[1..], x)
  }

  lemma {:induction false} InsertMembers<T>(x: T, s: seq<T>, less: (T, T) -> bool)
    ensures forall y :: y in Insert(x, s, less) <==> y == x || y in s
    decreases s
  {
    if s != [] && !less(x, s[0]) {
      InsertMembers(x, s[1..], less);
      assert s == [s[0]] + s[1..];
    }
  }

  lemma {:induction false} InsertTimes<T>(x: T, s: seq<T>, less: (T, T) -> bool, y: T)
    ensures Times(Insert(x, s, less), y) == Times(s, y) + if x == y then 1 else 0
    decreases s
  {
    if s == [] || less(x, s[0]) {
      assert ([x] + s)[1..] == s;
    } else {
      var rest := Insert(x, s[1..], less);
      InsertTimes(x, s[1..], less, y);
      assert ([s[0]] + rest)[1..] == rest;
    }
  }

  lemma {:induction false} InsertSorted<T(!new)>(x: T, s: seq<T>, less: (T, T) -> bool)
    requires WeakOrder(less) && Sorted(s, less)
    ensures Sorted(Insert(x, s, less), less)
    decreases s
  {
    if s == [] {
    } else if less(x, s[0]) {
      forall j | 0 <= j < |s|
        ensures !less(s[j], x)
      {
        assert !less(s[0], x) && (j > 0 ==> !less(s[j], s[0]));
      }
    } else {
      var head, rest := s[0], Insert(x, s[1..], less);
      InsertSorted(x, s[1..], less);
      InsertMembers(x, s[1..], less);
      forall k | 0 <= k < |rest|
        ensures !less(rest[k], head)
      {
        assert rest[k] in rest;
        if rest[k] != x {
          var j :| 0 <= j < |s[1..]| && s[1..][j] == rest[k];
          assert s[j + 1] == rest[k];
        }
      }
    }
  }

  lemma {:induction false} TimesJoin<T>(a: seq<T>, b: seq<T>, x: T)
    ensures Times(a + b, x) == Times(a, x) + Times(b, x)
    decreases a
  {
    if a == [] {
      assert a + b == b;
    } else {
      assert (a + b)[1..] == a[1..] + b;
      TimesJoin(a[1..], b, x);
    }
  }

  lemma {:induction false} TimesMember<T>(s: seq<T>, x: T)
    ensures x in s <==> Times(s, x) > 0
    decreases s
  {
    if s != [] {
      TimesMember(s[1..], x);
      assert s == [s[0]] + s[1..];
    }
  }

  /** Sorting gives a sorted rearrangement. */
  lemma {:induction false} SortSorts<T(!new)>(s: seq<T>, less: (T, T) -> bool, x: T)
    requires WeakOrder(less)
    ensures Sorted(Sort(s, less), less) && Times(Sort(s, less), x) == Times(s, x)
    ensures |Sort(s, less)| == |s| && forall y :: y in Sort(s, less) <==> y in s
    decreases s
  {
    if s != [] {
      var init, last := s[..|s| - 1], s[|s| - 1];
      SortSorts(init, less, x);
      InsertSorted(last, Sort(init, less), less);
      InsertMembers(last, Sort(init, less), less);
      InsertTimes(last, Sort(init, less), less, x);
      InsertLength(last, Sort(init, less), less);
      assert s == init + [last];
      TimesJoin(init, [last], x);
      assert [last][1..] == [];
    }
  }

  lemma {:induction false} InsertLength<T>(x: T, s: seq<T>, less: (T, T) -> bool)
    ensures |Insert(x, s, less)| == |s| + 1
    decreases s
  {
    if s != [] && !less(x, s[0]) {
      InsertLength(x, s[1..], less);
    }
  }

  lemma {:induction false} InsertLast<T>(x: T, s: seq<T>, less: (T, T) -> bool)
    requires forall i :: 0 <= i < |s| ==> !less(x, s[i])
    ensures Insert(x, s, less) == s + [x]
    decreases s
  {
    if s != [] {
      InsertLast(x, s[1..], less);
      assert s == [s[0]] + s[1..];
    }
  }

  /** The elements that tie with `x`, in their order. */
  function Ties<T>(s: seq<T>, x: T, less: (T, T) -> bool): seq<T> {
    if s == [] then []
    else (if !less(s[0], x) && !less(x, s[0]) then [s[0]] else []) + Ties(s[1..], x, less)
  }

  lemma {:induction false} TiesJoin<T>(a: seq<T>, b: seq<T>, x: T, less: (T, T) -> bool)
    ensures Ties(a + b, x, less) == Ties(a, x, less) + Ties(b, x, less)
    decreases a
  {
    if a == [] {
      assert a + b == b;
    } else {
      assert (a + b)[1..] == a[1..] + b;
      TiesJoin(a[1..], b, x, less);
    }
  }

  lemma {:induction false} NoTies<T>(s: seq<T>, x: T, less: (T, T) -> bool)
    requires forall i :: 0 <= i < |s| ==> less(x, s[i])
    ensures Ties(s, x, less) == []
    decreases s
  {
    if s != [] {
      NoTies(s[1..], x, less);
    }
  }

  lemma {:induction false} InsertKeepsTies<T(!new)>(y: T, s: seq<T>, x: T, less: (T, T) -> bool)
    requires WeakOrder(less) && Sorted(s, less)
    ensures Ties(Insert(y, s, less), x, less) == Ties(s + [y], x, less)
    decreases s
  {
    TiesJoin(s, [y], x, less);
    assert [y][1..] == [];
    if s == [] || less(y, s[0]) {
      TiesJoin([y], s, x, less);
      if s != [] && !less(y, x) && !less(x, y) {
        forall i | 0 <= i < |s|
          ensures less(x, s[i])
        {
          assert i > 0 ==> !less(s[i], s[0]);
          BeforeAll(x, y, s[0], s[i], less);
        }
        NoTies(s, x, less);
      }
    } else {
      var head, rest := s[0], Insert(y, s[1..], less);
      InsertKeepsTies(y, s[1..], x, less);
      TiesJoin(s[1..], [y], x, less);
      assert ([head] + rest)[1..] == rest;
    }
  }

  lemma {:induction false} BeforeAll<T(!new)>(x: T, y: T, head: T, z: T, less: (T, T) -> bool)
    requires WeakOrder(less) && !less(y, x) && !less(x, y) && less(y, head) && (z == head || !less(z, head))
    ensures less(x, z)
  {
    assert !less(x, z) && !less(y, x) ==> !less(y, z);
    assert !less(z, head) && !less(y, z) ==> !less(y, head);
  }

  /** Sorting is stable: elements that tie with any `x` keep their order. */
  lemma {:induction false} SortIsStable<T(!new)>(s: seq<T>, x: T, less: (T, T) -> bool)
    requires WeakOrder(less)
    ensures Ties(Sort(s, less), x, less) == Ties(s, x, less)
    decreases s
  {
    if s != [] {
      var init, last := s[..|s| - 1], s[|s| - 1];
      SortIsStable(init, x, less);
      SortSorts(init, less, x);
      InsertKeepsTies(last, Sort(init, less), x, less);
      TiesJoin(Sort(init, less), [last], x, less);
      TiesJoin(init, [last], x, less);
      assert s == init + [last];
    }
  }

  lemma {:induction false} SortKeepsSorted<T>(s: seq<T>, less: (T, T) -> bool)
    requires Sorted(s, less)
    ensures Sort(s, less) == s
    decreases s
  {
    if s != [] {
      var init, last := s[..|s| - 1], s[|s| - 1];
      SortKeepsSorted(init, less);
      InsertLast(last, init, less);
      assert init + [last] == s;
    }
  }

  /** No two elements tie. */
  predicate Strict<T>(s: seq<T>, less: (T, T) -> bool) {
    forall i, j :: 0 <= i < j < |s| ==> less(s[i], s[j])
  }

  lemma {:induction false} HasMember<T>(s: seq<T>)
    requires s != []
    ensures s[0] in s
  {
  }

  /** Two strictly sorted lists of the same elements are the same list. */
  lemma {:induction false} StrictIsUnique<T(!new)>(a: seq<T>, b: seq<T>, less: (T, T) -> bool)
    requires WeakOrder(less) && Strict(a, less) && Strict(b, less)
    requires forall x :: x in a <==> x in b
    ensures a == b
    decreases a
  {
    if a == [] {
      if b != [] {
        HasMember(b);
        assert false;
      }
    } else {
      assert a[0] in b;
      SameFirst(a, b, less);
      SameRest(a, b, less);
      SameRest(b, a, less);
      StrictIsUnique(a[1..], b[1..], less);
      assert a == [a[0]] + a[1..] && b == [b[0]] + b[1..];
    }
  }

  lemma {:induction false} SameFirst<T(!new)>(a: seq<T>, b: seq<T>, less: (T, T) -> bool)
    requires WeakOrder(less) && Strict(a, less) && Strict(b, less) && a != []
    requires forall x :: x in a <==> x in b
    ensures b != [] && a[0] == b[0]
  {
    assert a[0] in b;
    var i :| 0 <= i < |b| && b[i] == a[0];
    assert b[0] in a;
    var j :| 0 <= j < |a| && a[j] == b[0];
  }

  lemma {:induction false} SameRest<T(!new)>(a: seq<T>, b: seq<T>, less: (T, T) -> bool)
    requires WeakOrder(less) && Strict(a, less) && a != [] && b != [] && a[0] == b[0]
    requires forall x :: x in a <==> x in b
    ensures forall x :: x in a[1..] ==> x in b[1..]
  {
    forall x | x in a[1..]
      ensures x in b[1..]
    {
      var k :| 0 <= k < |a[1..]| && a[1..][k] == x;
      assert less(a[0], a[k + 1]) && a[k + 1] == x;
      assert x in a && x in b && x != b[0];
      assert b == [b[0]] + b[1..];
    }
  }

  predicate Distinct<T, K(==)>(s: seq<T>, key: T -> K) {
    forall i, j :: 0 <= i < j < |s| ==> key(s[i]) != key(s[j])
  }

  lemma {:induction false} InsertKeepsDistinct<T(!new), K>(x: T, s: seq<T>, less: (T, T) -> bool, key: T -> K)
    requires Distinct(s, key) && forall y :: y in s ==> key(y) != key(x)
    ensures Distinct(Insert(x, s, less), key)
    decreases s
  {
    if s != [] && !less(x, s[0]) {
      var head, rest := s[0], Insert(x, s[1..], less);
      InsertKeepsDistinct(x, s[1..], less, key);
      InsertMembers(x, s[1..], less);
      forall k | 0 <= k < |rest|
        ensures key(rest[k]) != key(head)
      {
        assert rest[k] in rest;
        if rest[k] != x {
          assert rest[k] in s[1..];
          var j :| 0 <= j < |s[1..]| && s[1..][j] == rest[k];
          assert s[j + 1] == rest[k];
        }
      }
    }
  }

  lemma {:induction false} SortKeepsDistinct<T(!new), K>(s: seq<T>, less: (T, T) -> bool, key: T -> K)
    requires Distinct(s, key)
    ensures Distinct(Sort(s, less), key) && forall y :: y in Sort(s, less) <==> y in s
    decreases s
  {
    if s != [] {
      var init, last := s[..|s| - 1], s[|s| - 1];
      SortKeepsDistinct(init, less, key);
      forall y | y in Sort(init, less)
        ensures key(y) != key(last)
      {
        var j :| 0 <= j < |init| && init[j] == y;
        assert s[j] == y && s[|s| - 1] == last;
      }
      InsertKeepsDistinct(last, Sort(init, less), less, key);
      InsertMembers(last, Sort(init, less), less);
      assert s == init + [last];
    }
  }

  /** The order tells elements with different keys apart. */
  ghost predicate Separates<T(!new), K>(less: (T, T) -> bool, key: T -> K) {
    forall a, b :: key(a) != key(b) ==> less(a, b) || less(b, a)
  }

  /** Lists of the same elements with distinct keys sort to the same list. */
  lemma {:induction false} SortForgetsOrder<T(!new), K>(a: seq<T>, b: seq<T>, less: (T, T) -> bool, key: T -> K)
    requires WeakOrder(less) && Separates(less, key) && Distinct(a, key) && Distinct(b, key)
    requires forall x :: x in a <==> x in b
    ensures Sort(a, less) == Sort(b, less)
  {
    SortIsStrict(a, less, key);
    SortIsStrict(b, less, key);
    StrictIsUnique(Sort(a, less), Sort(b, less), less);
  }

  lemma {:induction false} SortIsStrict<T(!new), K>(s: seq<T>, less: (T, T) -> bool, key: T -> K)
    requires WeakOrder(less) && Separates(less, key) && Distinct(s, key)
    ensures Strict(Sort(s, less), less) && forall y :: y in Sort(s, less) <==> y in s
  {
    SortKeepsDistinct(s, less, key);
    var r := Sort(s, less);
    if s != [] {
      SortSorts(s, less, s[0]);
    }
    forall i, j | 0 <= i < j < |r|
      ensures less(r[i], r[j])
    {
      assert !less(r[j], r[i]) && key(r[i]) != key(r[j]);
    }
  }
}
