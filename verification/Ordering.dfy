/** Stable sorting by a comparison, as Python's `sorted` and `list.sort` do it. */
module Ordering {

  ghost predicate TotalPreorder<T(!new)>(le: (T, T) -> bool) {
    && (forall a, b :: le(a, b) || le(b, a))
    && (forall a, b, c :: le(a, b) && le(b, c) ==> le(a, c))
  }

  ghost predicate Sorted<T>(s: seq<T>, le: (T, T) -> bool) {
    forall i, j | 0 <= i < j < |s| :: le(s[i], s[j])
  }

  /** Puts x before the first element that is not smaller, so equal elements keep their order. */
  function Insert<T>(x: T, s: seq<T>, le: (T, T) -> bool): seq<T> {
    if s == [] || le(x, s[0]) then [x] + s else [s[0]] + Insert(x, s[1..], le)
  }

  function Sort<T>(s: seq<T>, le: (T, T) -> bool): seq<T> {
    if s == [] then [] else Insert(s[0], Sort(s[1..], le), le)
  }

  function Filter<T>(s: seq<T>, keep: T -> bool): seq<T> {
    if s == [] then [] else (if keep(s[0]) then [s[0]] else []) + Filter(s[1..], keep)
  }

  ghost predicate Distinct<T>(s: seq<T>) {
    forall i, j | 0 <= i < j < |s| :: s[i] != s[j]
  }

  lemma {:induction false} InsertPermutes<T>(x: T, s: seq<T>, le: (T, T) -> bool)
    ensures multiset(Insert(x, s, le)) == multiset{x} + multiset(s)
  {
    if s == [] || le(x, s[0]) {
    } else {
      InsertPermutes(x, s[1..], le);
      assert s == [s[0]] + s[1..];
    }
  }

  lemma {:induction false} SortPermutes<T>(s: seq<T>, le: (T, T) -> bool)
    ensures multiset(Sort(s, le)) == multiset(s)
    ensures |Sort(s, le)| == |s|
    ensures forall x :: x in Sort(s, le) <==> x in s
  {
    if s != [] {
      SortPermutes(s[1..], le);
      InsertPermutes(s[0], Sort(s[1..], le), le);
      assert s == [s[0]] + s[1..];
    }
    assert |multiset(Sort(s, le))| == |multiset(s)|;
    forall x ensures x in Sort(s, le) <==> x in s {
      assert x in Sort(s, le) <==> x in multiset(Sort(s, le));
      assert x in s <==> x in multiset(s);
    }
  }

  lemma {:induction false} InsertSorted<T(!new)>(x: T, s: seq<T>, le: (T, T) -> bool)
    requires TotalPreorder(le)
    requires Sorted(s, le)
    ensures Sorted(Insert(x, s, le), le)
  {
    if s == [] || le(x, s[0]) {
      forall j | 0 <= j < |s| ensures le(x, s[j]) {
        assert j == 0 || le(s[0], s[j]);
      }
    } else {
      InsertSorted(x, s[1..], le);
      InsertPermutes(x, s[1..], le);
      var t := Insert(x, s[1..], le);
      forall j | 0 <= j < |t| ensures le(s[0], t[j]) {
        assert t[j] in multiset(t);
        assert t[j] == x || t[j] in s[1..];
      }
    }
  }

  lemma {:induction false} SortSorts<T(!new)>(s: seq<T>, le: (T, T) -> bool)
    requires TotalPreorder(le)
    ensures Sorted(Sort(s, le), le)
  {
    if s != [] {
      SortSorts(s[1..], le);
      InsertSorted(s[0], Sort(s[1..], le), le);
    }
  }

  lemma {:induction false} FilterMembers<T>(s: seq<T>, keep: T -> bool)
    ensures forall x | x in Filter(s, keep) :: x in s && keep(x)
    ensures forall x | x in s && keep(x) :: x in Filter(s, keep)
    ensures |Filter(s, keep)| <= |s|
  {
    if s != [] {
      FilterMembers(s[1..], keep);
      assert s == [s[0]] + s[1..];
    }
  }

  lemma {:induction false} FilterAppend<T>(s: seq<T>, x: T, keep: T -> bool)
    ensures Filter(s + [x], keep) == Filter(s, keep) + if keep(x) then [x] else []
  {
    if s == [] {
      assert s + [x] == [x];
    } else {
      var longer, last := s + [x], if keep(x) then [x] else [];
      assert longer[0] == s[0] && longer[1..] == s[1..] + [x];
      FilterAppend(s[1..], x, keep);
      var rest := Filter(s[1..], keep);
      assert [s[0]] + (rest + last) == [s[0]] + rest + last;
    }
  }

  lemma {:induction false} FilterSorted<T>(s: seq<T>, keep: T -> bool, le: (T, T) -> bool)
    requires Sorted(s, le)
    ensures Sorted(Filter(s, keep), le)
  {
    if s != [] {
      FilterSorted(s[1..], keep, le);
      FilterMembers(s[1..], keep);
      var rest := Filter(s[1..], keep);
      forall j | 0 <= j < |rest| ensures le(s[0], rest[j]) {
        assert rest[j] in rest;
        assert rest[j] in s[1..];
        var k :| 0 <= k < |s| - 1 && s[1..][k] == rest[j];
        assert s[k + 1] == rest[j];
      }
    }
  }

  lemma {:induction false} FilterInsert<T(!new)>(x: T, s: seq<T>, le: (T, T) -> bool, keep: T -> bool)
    requires TotalPreorder(le)
    requires Sorted(s, le)
    ensures Filter(Insert(x, s, le), keep)
         == if keep(x) then Insert(x, Filter(s, keep), le) else Filter(s, keep)
  {
    if s == [] {
    } else if le(x, s[0]) {
      assert ([x] + s)[1..] == s;
      var f := Filter(s, keep);
      FilterMembers(s, keep);
      if f != [] {
        assert f[0] in f;
        assert le(x, f[0]);
      }
    } else {
      FilterInsert(x, s[1..], le, keep);
      var t := Insert(x, s, le);
      assert t[0] == s[0] && t[1..] == Insert(x, s[1..], le);
      assert Filter(t, keep) == (if keep(s[0]) then [s[0]] else []) + Filter(t[1..], keep);
      if keep(s[0]) {
        var f := Filter(s, keep);
        assert f == [s[0]] + Filter(s[1..], keep);
        assert f[1..] == Filter(s[1..], keep);
      } else {
        assert Filter(s, keep) == Filter(s[1..], keep);
      }
    }
  }

  /** Dropping elements before a stable sort or after it gives the same list. */
  lemma {:induction false} FilterSort<T(!new)>(s: seq<T>, le: (T, T) -> bool, keep: T -> bool)
    requires TotalPreorder(le)
    ensures Filter(Sort(s, le), keep) == Sort(Filter(s, keep), le)
  {
    if s != [] {
      FilterSort(s[1..], le, keep);
      SortSorts(s[1..], le);
      FilterInsert(s[0], Sort(s[1..], le), le, keep);
      if keep(s[0]) {
        var f := Filter(s, keep);
        assert f == [s[0]] + Filter(s[1..], keep);
        assert f[1..] == Filter(s[1..], keep);
      } else {
        assert Filter(s, keep) == Filter(s[1..], keep);
      }
    }
  }

  lemma {:induction false} DistinctOnce<T>(s: seq<T>, x: T)
    requires Distinct(s)
    ensures multiset(s)[x] <= 1
  {
    if s != [] {
      assert s == [s[0]] + s[1..];
      DistinctOnce(s[1..], x);
      assert s[0] == x ==> x !in s[1..];
    }
  }

  lemma DistinctFromCounts<T>(s: seq<T>)
    requires forall x :: multiset(s)[x] <= 1
    ensures Distinct(s)
  {
    forall i, j | 0 <= i < j < |s| ensures s[i] != s[j] {
      assert s == s[..j] + [s[j]] + s[j + 1..];
      assert multiset(s)[s[j]] >= multiset(s[..j])[s[j]] + 1;
      assert s[i] in s[..j];
    }
  }

  lemma SortDistinct<T>(s: seq<T>, le: (T, T) -> bool)
    requires Distinct(s)
    ensures Distinct(Sort(s, le))
  {
    SortPermutes(s, le);
    forall x ensures multiset(Sort(s, le))[x] <= 1 {
      DistinctOnce(s, x);
    }
    DistinctFromCounts(Sort(s, le));
  }

  function Take<T>(s: seq<T>, k: nat): seq<T> {
    if |s| <= k then s else s[..k]
  }

  lemma TakeFirst<T>(x: T, s: seq<T>, k: nat)
    requires k > 0
    ensures Take([x] + s, k) == [x] + Take(s, k - 1)
  {
  }

  /** What is left out of the first k comes after each of them. */
  lemma TakenFirst<T>(s: seq<T>, k: nat, le: (T, T) -> bool, x: T, y: T)
    requires Sorted(s, le) && x in Take(s, k) && y in s && y !in Take(s, k)
    ensures le(x, y)
  {
    forall q | 0 <= q < |Take(s, k)| ensures s[q] in Take(s, k) {
      assert s[q] == Take(s, k)[q];
    }
    var i :| 0 <= i < |Take(s, k)| && Take(s, k)[i] == x;
    var j :| 0 <= j < |s| && s[j] == y;
    assert i < j;
  }

  lemma TakeSize<T>(s: seq<T>, k: nat)
    ensures |Take(s, k)| == if |s| <= k then |s| else k
    ensures multiset(Take(s, k)) <= multiset(s)
  {
    assert s == Take(s, k) + s[|Take(s, k)|..];
  }

  /** A filter that drops none of the first k elements leaves the first k as they were. */
  lemma {:induction false} TakeFiltered<T>(s: seq<T>, k: nat, keep: T -> bool)
    requires forall x | x in Take(s, k) :: keep(x)
    ensures Take(Filter(s, keep), k) == Take(s, k)
  {
    if s != [] && k > 0 {
      var head, rest := s[0], s[1..];
      assert s == [head] + rest;
      TakeFirst(head, rest, k);
      assert head in Take(s, k) && keep(head);
      forall x | x in Take(rest, k - 1) ensures keep(x) {
        assert x in [head] + Take(rest, k - 1);
      }
      TakeFiltered(rest, k - 1, keep);
      TakeFirst(head, Filter(rest, keep), k);
      assert Filter(s, keep) == [head] + Filter(rest, keep);
    }
  }

  /** Code-point order of strings, as Python compares them. */
  predicate LexLe(a: string, b: string) {
    a == [] || (b != [] && (a[0] < b[0] || (a[0] == b[0] && LexLe(a[1..], b[1..]))))
  }

  /** The first difference decides, and a string comes after its own beginnings. */
  lemma {:induction false} LexLeIff(a: string, b: string)
    ensures LexLe(a, b) <==> exists k: nat :: SmallerAt(a, b, k)
  {
    if a == [] {
      assert SmallerAt(a, b, 0);
    } else if b == [] {
      assert forall k: nat :: !SmallerAt(a, b, k);
    } else {
      LexLeIff(a[1..], b[1..]);
      if a[0] < b[0] {
        assert SmallerAt(a, b, 0);
      }
      if k: nat :| SmallerAt(a[1..], b[1..], k) && a[0] == b[0] {
        SmallerBehind(a, b, k);
      }
      if k: nat :| SmallerAt(a, b, k) && a[0] >= b[0] {
        assert k > 0 && a[0] == a[..k][0] == b[..k][0] == b[0];
        SmallerAhead(a, b, k);
      }
    }
  }

  predicate SmallerAt(a: string, b: string, k: nat) {
    k <= |a| && k <= |b| && a[..k] == b[..k] && (k == |a| || (k < |b| && a[k] < b[k]))
  }

  lemma SmallerBehind(a: string, b: string, k: nat)
    requires a != [] && b != [] && a[0] == b[0] && SmallerAt(a[1..], b[1..], k)
    ensures SmallerAt(a, b, k + 1)
  {
    assert a[..k + 1] == [a[0]] + a[1..][..k] && b[..k + 1] == [b[0]] + b[1..][..k];
  }

  lemma SmallerAhead(a: string, b: string, k: nat)
    requires a != [] && b != [] && k > 0 && SmallerAt(a, b, k)
    ensures SmallerAt(a[1..], b[1..], k - 1)
  {
    assert a[1..][..k - 1] == a[..k][1..] && b[1..][..k - 1] == b[..k][1..];
  }

  lemma {:induction false} LexTotal(a: string, b: string)
    ensures LexLe(a, b) || LexLe(b, a)
    ensures LexLe(a, b) && LexLe(b, a) ==> a == b
  {
    if a != [] && b != [] {
      LexTotal(a[1..], b[1..]);
      if a[0] == b[0] && a[1..] == b[1..] {
        assert a == [a[0]] + a[1..] == b;
      }
    }
  }

  lemma {:induction false} LexTransitive(a: string, b: string, c: string)
    requires LexLe(a, b) && LexLe(b, c)
    ensures LexLe(a, c)
  {
    if a != [] && a[0] == b[0] && b[0] == c[0] {
      LexTransitive(a[1..], b[1..], c[1..]);
    }
  }

  lemma DistinctConcat<T>(a: seq<T>, b: seq<T>)
    requires Distinct(a) && Distinct(b) && forall x | x in a :: x !in b
    ensures Distinct(a + b)
  {
    forall i, j | 0 <= i < j < |a + b| ensures (a + b)[i] != (a + b)[j] {
      if i < |a| <= j {
        assert a[i] in a && b[j - |a|] in b;
      }
    }
  }

  lemma {:induction false} FilterAll<T>(s: seq<T>, keep: T -> bool)
    requires forall x | x in s :: keep(x)
    ensures Filter(s, keep) == s
  {
    if s != [] {
      FilterAll(s[1..], keep);
      assert s == [s[0]] + s[1..];
    }
  }

  lemma {:induction false} FilterTwice<T>(s: seq<T>, first: T -> bool, second: T -> bool, both: T -> bool)
    requires forall x | x in s :: both(x) <==> first(x) && second(x)
    ensures Filter(Filter(s, first), second) == Filter(s, both)
  {
    if s != [] {
      FilterTwice(s[1..], first, second, both);
      var rest := Filter(s[1..], first);
      assert Filter(s, first) == if first(s[0]) then [s[0]] + rest else rest;
      if first(s[0]) {
        assert Filter(s, first)[1..] == rest;
      }
    }
  }

  lemma {:induction false} FilterDistinct<T>(s: seq<T>, keep: T -> bool)
    requires Distinct(s)
    ensures Distinct(Filter(s, keep))
  {
    if s != [] {
      FilterDistinct(s[1..], keep);
      FilterMembers(s[1..], keep);
      if keep(s[0]) {
        DistinctConcat([s[0]], Filter(s[1..], keep));
      }
    }
  }
}
