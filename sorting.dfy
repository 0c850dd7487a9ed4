/** Array.prototype.sort as the application uses it: a stable sort under a
    comparator, written here as insertion sort over a "may come before"
    relation `le` (le(a, b) is `compare(a, b) <= 0`). The database's sorted
    queries are modelled with the same function. */
module Sorting {

  /** le is total and transitive: a comparator that orders consistently. */
  ghost predicate TotalPreorder<T(!new)>(le: (T, T) -> bool) {
    && (forall a, b :: le(a, b) || le(b, a))
    && (forall a, b, c :: le(a, b) && le(b, c) ==> le(a, c))
  }

  predicate SortedBy<T>(s: seq<T>, le: (T, T) -> bool) {
    forall i, j :: 0 <= i < j < |s| ==> le(s[i], s[j])
  }

  predicate NoDup<T(==)>(s: seq<T>) {
    forall i, j :: 0 <= i < j < |s| ==> s[i] != s[j]
  }

  /** Puts x before the first element it may precede; x goes before the
      elements it ties with, which keeps the sort stable. */
  function InsertBy<T>(x: T, s: seq<T>, le: (T, T) -> bool): (r: seq<T>)
    ensures multiset(r) == multiset(s) + multiset{x}
  {
    if s == [] || le(x, s[0]) then [x] + s
    else
      assert s == [s[0]] + s[1..];
      [s[0]] + InsertBy(x, s[1..], le)
  }

  function SortBy<T>(s: seq<T>, le: (T, T) -> bool): (r: seq<T>)
    ensures multiset(r) == multiset(s)
  {
    if s == [] then []
    else
      assert s == [s[0]] + s[1..];
      InsertBy(s[0], SortBy(s[1..], le), le)
  }

  lemma {:induction false} InsertSorted<T(!new)>(x: T, s: seq<T>, le: (T, T) -> bool)
    requires TotalPreorder(le)
    requires SortedBy(s, le)
    ensures SortedBy(InsertBy(x, s, le), le)
  {
    if s != [] && !le(x, s[0]) {
      InsertSorted(x, s[1..], le);
      var r := InsertBy(x, s[1..], le);
      assert multiset(r) == multiset(s[1..]) + multiset{x};
      forall k | 0 <= k < |r| ensures le(s[0], r[k]) {
        assert r[k] in multiset(r);
        if r[k] != x {
          assert r[k] in multiset(s[1..]);
          var m :| 0 <= m < |s[1..]| && s[1..][m] == r[k];
          assert s[m + 1] == r[k];
        }
      }
    }
  }

  /** The result of SortBy is ordered and is a permutation of the input. */
  lemma {:induction false} SortBySorted<T(!new)>(s: seq<T>, le: (T, T) -> bool)
    requires TotalPreorder(le)
    ensures SortedBy(SortBy(s, le), le)
    ensures multiset(SortBy(s, le)) == multiset(s)
  {
    if s != [] {
      SortBySorted(s[1..], le);
      InsertSorted(s[0], SortBy(s[1..], le), le);
    }
  }

  /** With a comparator that always answers 0 the stable sort changes nothing. */
  lemma {:induction false} SortByConstant<T>(s: seq<T>, le: (T, T) -> bool)
    requires forall a, b :: le(a, b)
    ensures SortBy(s, le) == s
  {
    if s != [] {
      SortByConstant(s[1..], le);
      assert s == [s[0]] + s[1..];
    }
  }

  /** The elements x of s with p(x) == want, in their order in s. */
  function Filter<T>(s: seq<T>, p: T -> bool, want: bool): seq<T> {
    if s == [] then [] else (if p(s[0]) == want then [s[0]] else []) + Filter(s[1..], p, want)
  }

  /** Filter keeps exactly the elements of s with p(x) == want. */
  lemma {:induction false} FilterMembers<T>(s: seq<T>, p: T -> bool, want: bool)
    ensures forall x :: x in Filter(s, p, want) <==> x in s && p(x) == want
  {
    if s != [] {
      FilterMembers(s[1..], p, want);
      assert s == [s[0]] + s[1..];
    }
  }

  lemma {:induction false} FilterAppend<T>(a: seq<T>, b: seq<T>, p: T -> bool, want: bool)
    ensures Filter(a + b, p, want) == Filter(a, p, want) + Filter(b, p, want)
  {
    if a == [] {
      assert a + b == b;
    } else {
      FilterAppend(a[1..], b, p, want);
      var head := if p(a[0]) == want then [a[0]] else [];
      assert (a + b)[0] == a[0] && (a + b)[1..] == a[1..] + b;
      assert Filter(a + b, p, want) == head + (Filter(a[1..], p, want) + Filter(b, p, want));
      assert Filter(a, p, want) == head + Filter(a[1..], p, want);
      AppendAssoc(head, Filter(a[1..], p, want), Filter(b, p, want));
    }
  }

  lemma AppendAssoc<T>(a: seq<T>, b: seq<T>, c: seq<T>)
    ensures a + (b + c) == (a + b) + c
  {
  }

  /** Splitting by p loses and duplicates nothing. */
  lemma {:induction false} FilterPartition<T>(s: seq<T>, p: T -> bool)
    ensures multiset(Filter(s, p, true)) + multiset(Filter(s, p, false)) == multiset(s)
  {
    if s != [] {
      FilterPartition(s[1..], p);
      assert s == [s[0]] + s[1..];
    }
  }

  lemma {:induction false} FilterAll<T>(s: seq<T>, p: T -> bool, want: bool)
    requires forall x :: x in s ==> p(x) == want
    ensures Filter(s, p, want) == s
  {
    if s != [] {
      FilterAll(s[1..], p, want);
    }
  }

  lemma {:induction false} FilterNone<T>(s: seq<T>, p: T -> bool, want: bool)
    requires forall x :: x in s ==> p(x) != want
    ensures Filter(s, p, want) == []
  {
    if s != [] {
      FilterNone(s[1..], p, want);
    }
  }

  /** When nothing satisfies p, the complement filter is the identity. */
  lemma {:induction false} FilterComplement<T>(s: seq<T>, p: T -> bool)
    requires Filter(s, p, true) == []
    ensures Filter(s, p, false) == s
  {
    if s != [] {
      FilterComplement(s[1..], p);
    }
  }

  /** A permutation of a duplicate-free sequence is duplicate-free. */
  lemma NoDupPermutation<T>(a: seq<T>, b: seq<T>)
    requires multiset(a) == multiset(b)
    requires NoDup(a)
    ensures NoDup(b)
  {
    forall i, j | 0 <= i < j < |b| ensures b[i] != b[j] {
      if b[i] == b[j] {
        var x := b[i];
        assert b == b[..j] + b[j..];
        assert x in multiset(b[..j]) by { assert b[..j][i] == x; }
        assert x in multiset(b[j..]) by { assert b[j..][0] == x; }
        assert multiset(b)[x] >= 2;
        NoDupCount(a, x);
      }
    }
  }

  lemma {:induction false} NoDupCount<T>(a: seq<T>, x: T)
    requires NoDup(a)
    ensures multiset(a)[x] <= 1
  {
    if a != [] {
      assert a == [a[0]] + a[1..];
      NoDupCount(a[1..], x);
      if a[0] == x {
        assert x !in a[1..];
        assert multiset(a[1..])[x] == 0;
      }
    }
  }
}
