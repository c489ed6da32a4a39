/** Sizes of sets, and the set of a sequence's members. */
module Sets {
  import opened Ordering

  lemma {:induction false} SubsetSize<T>(a: set<T>, b: set<T>)
    requires a <= b
    ensures |a| <= |b|
  {
    if a != {} {
      var x :| x in a;
      SubsetSize(a - {x}, b - {x});
    }
  }

  lemma DisjointSize<T>(a: set<T>, b: set<T>, whole: set<T>)
    requires a !! b && a <= whole && b <= whole
    ensures |a| + |b| <= |whole|
  {
    assert |a + b| == |a| + |b|;
    SubsetSize(a + b, whole);
  }

  function SetOf<T>(s: seq<T>): set<T> {
    set x | x in s
  }

  lemma {:induction false} SetSize<T>(s: seq<T>)
    requires Distinct(s)
    ensures |SetOf(s)| == |s|
  {
    if s != [] {
      SetSize(s[1..]);
      assert s == [s[0]] + s[1..];
      assert SetOf(s) == {s[0]} + SetOf(s[1..]);
    }
  }

  lemma {:induction false} AtMost<T>(s: seq<T>)
    ensures |SetOf(s)| <= |s|
  {
    if s != [] {
      AtMost(s[1..]);
      assert s == [s[0]] + s[1..];
      assert SetOf(s) == {s[0]} + SetOf(s[1..]);
    }
  }

  /** A sequence with as many members as places repeats none. */
  lemma {:induction false} SizeDistinct<T>(s: seq<T>)
    requires |SetOf(s)| == |s|
    ensures Distinct(s)
  {
    if s != [] {
      var rest := s[1..];
      assert s == [s[0]] + rest;
      assert SetOf(s) == {s[0]} + SetOf(rest);
      AtMost(rest);
      SizeDistinct(rest);
      assert forall i | 0 <= i < |rest| :: rest[i] in SetOf(rest);
    }
  }

  lemma SameMultiset<T>(a: seq<T>, b: seq<T>)
    requires Distinct(a) && Distinct(b) && SetOf(a) == SetOf(b)
    ensures multiset(a) == multiset(b)
  {
    forall x ensures multiset(a)[x] == multiset(b)[x] {
      DistinctOnce(a, x);
      DistinctOnce(b, x);
      assert x in multiset(a) <==> x in a;
      assert x in multiset(b) <==> x in b;
      assert x in a <==> x in SetOf(a);
      assert x in b <==> x in SetOf(b);
    }
  }
}
