/** Sorting by a total order: the sorted arrangement of a multiset is unique, so what is
    computed from it depends on the multiset alone. */
module Sorting {
  import opened Basics

  /** Any two can be compared; they may be equal in the order without being the same. */
  ghost predicate Preorder<T(!new)>(le: (T, T) -> bool) {
    && (forall a, b :: le(a, b) || le(b, a))
    && (forall a, b, c :: le(a, b) && le(b, c) ==> le(a, c))
  }

  ghost predicate TotalOrder<T(!new)>(le: (T, T) -> bool) {
    && Preorder(le)
    && (forall a :: le(a, a))
    && (forall a, b :: le(a, b) && le(b, a) ==> a == b)
  }

  predicate Sorted<T>(s: seq<T>, le: (T, T) -> bool) {
    forall i, j | 0 <= i < j < |s| :: le(s[i], s[j])
  }

  function Insert<T>(x: T, s: seq<T>, le: (T, T) -> bool): seq<T> {
    if s == [] || le(x, s[0]) then [x] + s else [s[0]] + Insert(x, s[1..], le)
  }

  function Sort<T>(s: seq<T>, le: (T, T) -> bool): seq<T> {
    if s == [] then [] else Insert(s[0], Sort(s[1..], le), le)
  }

  lemma SortedPrepend<T(!new)>(x: T, s: seq<T>, le: (T, T) -> bool)
    requires Sorted(s, le) && forall y | y in s :: le(x, y)
    ensures Sorted([x] + s, le)
  {
    var t := [x] + s;
    forall i, j | 0 <= i < j < |t| ensures le(t[i], t[j]) {
      assert t[j] == s[j - 1] && s[j - 1] in s;
      if i > 0 { assert t[i] == s[i - 1]; }
    }
  }

  lemma SortedTail<T(!new)>(s: seq<T>, le: (T, T) -> bool)
    requires s != [] && Sorted(s, le)
    ensures Sorted(s[1..], le) && forall y | y in s[1..] :: le(s[0], y)
  {
    forall y | y in s[1..] ensures le(s[0], y) {
      var i :| 0 <= i < |s[1..]| && s[1..][i] == y;
      assert y == s[i + 1];
    }
    assert forall i | 0 <= i < |s[1..]| :: s[1..][i] == s[i + 1];
  }

  lemma PrependMultiset<T>(x: T, s: seq<T>)
    ensures multiset([x] + s) == multiset{x} + multiset(s)
  {
  }

  lemma {:induction false} InsertKeeps<T(!new)>(x: T, s: seq<T>, le: (T, T) -> bool)
    requires Preorder(le) && Sorted(s, le)
    ensures Sorted(Insert(x, s, le), le) && multiset(Insert(x, s, le)) == multiset(s) + multiset{x}
  {
    if s == [] {
    } else {
      SortedTail(s, le);
      assert s == [s[0]] + s[1..];
      PrependMultiset(s[0], s[1..]);
      if le(x, s[0]) {
        forall y | y in s ensures le(x, y) {
          assert y == s[0] || y in s[1..];
        }
        SortedPrepend(x, s, le);
        PrependMultiset(x, s);
      } else {
        var rest := Insert(x, s[1..], le);
        InsertKeeps(x, s[1..], le);
        forall y | y in rest ensures le(s[0], y) {
          assert y in multiset(rest);
          assert y == x || y in multiset(s[1..]);
        }
        SortedPrepend(s[0], rest, le);
        PrependMultiset(s[0], rest);
      }
    }
  }

  lemma {:induction false} SortSorts<T(!new)>(s: seq<T>, le: (T, T) -> bool)
    requires Preorder(le)
    ensures Sorted(Sort(s, le), le) && multiset(Sort(s, le)) == multiset(s)
  {
    if s == [] {
    } else {
      SortSorts(s[1..], le);
      InsertKeeps(s[0], Sort(s[1..], le), le);
      assert s == [s[0]] + s[1..];
    }
  }

  lemma FirstIsLeast<T(!new)>(s: seq<T>, x: T, le: (T, T) -> bool)
    requires TotalOrder(le) && Sorted(s, le) && x in s
    ensures s != [] && le(s[0], x)
  {
    var i :| 0 <= i < |s| && s[i] == x;
  }

  lemma TailMultiset<T>(s: seq<T>)
    requires s != []
    ensures multiset(s[1..]) == multiset(s) - multiset{s[0]}
  {
    assert s == [s[0]] + s[1..];
  }

  lemma {:induction false} SortedUnique<T(!new)>(a: seq<T>, b: seq<T>, le: (T, T) -> bool)
    requires TotalOrder(le) && Sorted(a, le) && Sorted(b, le) && multiset(a) == multiset(b)
    ensures a == b
  {
    assert |multiset(a)| == |a| && |multiset(b)| == |b|;
    if a == [] {
    } else {
      assert b[0] in multiset(b) && a[0] in multiset(a);
      FirstIsLeast(a, b[0], le);
      FirstIsLeast(b, a[0], le);
      TailMultiset(a);
      TailMultiset(b);
      SortedUnique(a[1..], b[1..], le);
      assert a == [a[0]] + a[1..] && b == [b[0]] + b[1..];
    }
  }

  // ---------------------------------------------------------------- strings

  /** The order of strings by code points. */
  predicate StringLe(a: string, b: string) {
    a == [] || (b != [] && (a[0] < b[0] || (a[0] == b[0] && StringLe(a[1..], b[1..]))))
  }

  lemma {:induction false} StringLeTotal(a: string, b: string)
    ensures StringLe(a, a)
    ensures StringLe(a, b) || StringLe(b, a)
    ensures StringLe(a, b) && StringLe(b, a) ==> a == b
    decreases |a| + |b|
  {
    if a == [] {
    } else {
      StringLeTotal(a[1..], if b == [] then [] else b[1..]);
      if b != [] && a[0] == b[0] {
        assert a == [a[0]] + a[1..] && b == [b[0]] + b[1..];
      }
    }
  }

  lemma {:induction false} StringLeTransitive(a: string, b: string, c: string)
    requires StringLe(a, b) && StringLe(b, c)
    ensures StringLe(a, c)
  {
    if a == [] {
    } else if a[0] == b[0] && b[0] == c[0] {
      StringLeTransitive(a[1..], b[1..], c[1..]);
    }
  }

  lemma StringOrder()
    ensures TotalOrder(StringLe)
  {
    forall a, b ensures StringLe(a, a) && (StringLe(a, b) || StringLe(b, a))
        && (StringLe(a, b) && StringLe(b, a) ==> a == b) {
      StringLeTotal(a, b);
    }
    forall a, b, c | StringLe(a, b) && StringLe(b, c) ensures StringLe(a, c) {
      StringLeTransitive(a, b, c);
    }
  }

  /** `sorted` of a set of strings. */
  method SortedElements(s: set<string>) returns (r: seq<string>)
    ensures Elements(r) == s && Sorted(r, StringLe) && Distinct(r)
  {
    r := [];
    var rest := s;
    StringOrder();
    while rest != {}
      invariant rest <= s && Elements(r) == s - rest
      invariant Sorted(r, StringLe) && Distinct(r)
      decreases |rest|
    {
      var x :| x in rest;
      InsertKeeps(x, r, StringLe);
      InsertNew(x, r);
      r := Insert(x, r, StringLe);
      rest := rest - {x};
    }
  }

  lemma {:induction false} InsertNew(x: string, s: seq<string>)
    requires x !in s && Distinct(s)
    ensures Distinct(Insert(x, s, StringLe))
    ensures Elements(Insert(x, s, StringLe)) == Elements(s) + {x}
  {
    if s == [] || StringLe(x, s[0]) {
    } else {
      InsertNew(x, s[1..]);
      var rest := Insert(x, s[1..], StringLe);
      assert s == [s[0]] + s[1..];
      assert s[0] !in s[1..];
      forall i | 0 <= i < |rest| ensures rest[i] != s[0] {
        assert rest[i] in Elements(rest);
      }
      var r := [s[0]] + rest;
      assert Elements(r) == {s[0]} + Elements(rest);
      assert Elements(s) == {s[0]} + Elements(s[1..]);
    }
  }

  lemma {:induction false} DistinctMultiset<T>(s: seq<T>, x: T)
    requires Distinct(s)
    ensures multiset(s)[x] == if x in s then 1 else 0
  {
    if s == [] {
    } else {
      var n := |s| - 1;
      DistinctMultiset(s[..n], x);
      assert s == s[..n] + [s[n]];
    }
  }

  lemma {:induction false} LeastExists(s: set<string>) returns (x: string)
    requires s != {}
    ensures x in s && forall y | y in s :: StringLe(x, y)
  {
    StringOrder();
    var z :| z in s;
    if s == {z} {
      x := z;
    } else {
      var least := LeastExists(s - {z});
      x := if StringLe(z, least) then z else least;
    }
  }

  lemma LeastIsThere(s: set<string>)
    requires s != {}
    ensures exists x :: x in s && forall y | y in s :: StringLe(x, y)
  {
    var x := LeastExists(s);
  }

  /** A set of strings in order. */
  function InOrder(s: set<string>): (r: seq<string>)
    ensures Elements(r) == s && Sorted(r, StringLe) && Distinct(r)
    decreases |s|
  {
    if s == {} then []
    else
      LeastIsThere(s);
      StringOrder();
      var x :| x in s && forall y | y in s :: StringLe(x, y);
      var rest := InOrder(s - {x});
      SortedPrepend(x, rest, StringLe);
      PrependedElements(x, rest);
      [x] + rest
  }

  lemma PrependedElements(x: string, s: seq<string>)
    ensures Elements([x] + s) == {x} + Elements(s)
    ensures Distinct(s) && x !in Elements(s) ==> Distinct([x] + s)
  {
  }

  /** There is one way to put a set of strings in order. */
  lemma OrderIsUnique(a: seq<string>, b: seq<string>)
    requires Sorted(a, StringLe) && Distinct(a) && Sorted(b, StringLe) && Distinct(b) && Elements(a) == Elements(b)
    ensures a == b
  {
    StringOrder();
    forall x ensures multiset(a)[x] == multiset(b)[x] {
      DistinctMultiset(a, x);
      DistinctMultiset(b, x);
      assert x in a <==> x in Elements(a);
      assert x in b <==> x in Elements(b);
    }
    SortedUnique(a, b, StringLe);
  }
}
