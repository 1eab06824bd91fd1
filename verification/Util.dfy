// Small facts about sequences and sets that several parts use.
module Util {
  // How often x occurs in s.
  function Count(s: seq<int>, x: int): nat { multiset(s)[x] }

  predicate NoDup<T(==)>(s: seq<T>) {
    forall i, j :: 0 <= i < j < |s| ==> s[i] != s[j]
  }

  lemma NoDupAppend<T>(s: seq<T>, x: T)
    requires NoDup(s) && x !in s
    ensures NoDup(s + [x])
  {
  }

  // vector::erase of the position found by std::find.
  method EraseFirst(s: seq<int>, x: int) returns (r: seq<int>)
    requires NoDup(s)
    ensures NoDup(r)
    ensures forall v :: v in r <==> v in s && v != x
  {
    var i := 0;
    while i < |s| && s[i] != x
      invariant 0 <= i <= |s|
      invariant x !in s[..i]
    {
      i := i + 1;
    }
    if i == |s| { return s; }
    r := s[..i] + s[i + 1..];
    forall v ensures v in r <==> v in s && v != x {
      assert s == s[..i] + [x] + s[i + 1..];
      if v in s && v != x { assert v in s[..i] || v in s[i + 1..]; }
    }
  }

  lemma NonEmpty(a: set<int>)
    requires a != {}
    ensures exists x :: x in a
  {
    assert (forall x :: x !in a) ==> a == {};
  }

  lemma StrictSubset(a: set<int>, b: set<int>, x: int)
    requires a <= b && x in b && x !in a
    ensures |a| < |b|
  {
    assert a <= b - {x};
    Smaller(a, b - {x});
  }

  lemma {:induction false} Fewer(a: set<int>, b: set<int>)
    requires forall x :: x in a ==> x in b
    ensures |a| <= |b|
    decreases |a|
  {
    if a != {} {
      NonEmpty(a);
      var x :| x in a;
      Fewer(a - {x}, b - {x});
    }
  }

  lemma {:induction false} MinusSize(a: set<int>, b: set<int>)
    requires forall x :: x in b ==> x in a
    ensures |a - b| == |a| - |b|
    decreases |b|
  {
    if b == {} {
      assert a - b == a;
    } else {
      NonEmpty(b);
      var x :| x in b;
      MinusSize(a - {x}, b - {x});
      assert a - {x} - (b - {x}) == a - b;
    }
  }

  lemma {:induction false} Smaller(a: set<int>, b: set<int>)
    requires a <= b
    ensures |a| <= |b|
    decreases |a|
  {
    if a != {} {
      NonEmpty(a);
      var x :| x in a;
      Smaller(a - {x}, b - {x});
    }
  }

  function AsSet(s: seq<int>): set<int> { set x | x in s }

  lemma Twice<T>(s: seq<T>, a: nat, b: nat)
    requires a < b < |s| && s[a] == s[b]
    ensures multiset(s)[s[a]] >= 2
  {
    assert s == s[..b] + [s[b]] + s[b + 1..];
    assert s[a] == s[..b][a];
    assert s[a] in s[..b];
  }

  lemma {:induction false} Once<T>(s: seq<T>, x: T)
    requires NoDup(s)
    ensures multiset(s)[x] <= 1
  {
    if s != [] {
      var n := |s| - 1;
      assert s == s[..n] + [s[n]];
      Once(s[..n], x);
      if s[n] == x { assert x !in s[..n]; }
    }
  }

  // A fact behind `forall x :: Look(x) ==> fact` is passed on by its name and
  // is looked into only where Look is mentioned.
  predicate Look(x: int) { true }

  // The same with a second key, for what stays closed while Look is mentioned.
  predicate Peek(x: int) { true }
}
