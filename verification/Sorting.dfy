/** Python's stable `sorted`, and the facts about it the models use. */
module Sorting {

  /** `le(a, b)`: a may stand before b.  Every sort key used here gives one of these. */
  ghost predicate TotalPreorder<T(!new)>(le: (T, T) -> bool) {
    && (forall a, b :: le(a, b) || le(b, a))
    && (forall a, b, c :: le(a, b) && le(b, c) ==> le(a, c))
  }

  ghost predicate Antisymmetric<T(!new)>(le: (T, T) -> bool) {
    forall a, b :: le(a, b) && le(b, a) ==> a == b
  }

  ghost predicate InOrder<T>(s: seq<T>, le: (T, T) -> bool) {
    forall i, j :: 0 <= i < j < |s| ==> le(s[i], s[j])
  }

  function Insert<T>(x: T, s: seq<T>, le: (T, T) -> bool): seq<T> {
    if s == [] then [x]
    else if le(x, s[0]) then [x] + s
    else [s[0]] + Insert(x, s[1..], le)
  }

  function Sorted<T>(s: seq<T>, le: (T, T) -> bool): seq<T> {
    if s == [] then [] else Insert(s[0], Sorted(s[1..], le), le)
  }

  lemma {:induction false} InsertPermutes<T>(x: T, s: seq<T>, le: (T, T) -> bool)
    ensures multiset(Insert(x, s, le)) == multiset{x} + multiset(s)
    ensures |Insert(x, s, le)| == |s| + 1
  {
    if s == [] {
    } else if le(x, s[0]) {
    } else {
      InsertPermutes(x, s[1..], le);
      assert s == [s[0]] + s[1..];
    }
  }

  lemma {:induction false} SortedPermutes<T>(s: seq<T>, le: (T, T) -> bool)
    ensures multiset(Sorted(s, le)) == multiset(s)
    ensures |Sorted(s, le)| == |s|
  {
    if s != [] {
      SortedPermutes(s[1..], le);
      InsertPermutes(s[0], Sorted(s[1..], le), le);
      assert s == [s[0]] + s[1..];
    }
  }

  lemma MultisetAppend<T>(a: seq<T>, b: seq<T>)
    ensures multiset(a + b) == multiset(a) + multiset(b)
  {
  }

  lemma MultisetSnoc<T>(s: seq<T>)
    requires s != []
    ensures multiset(s) == multiset(s[..|s| - 1]) + multiset{s[|s| - 1]}
  {
    assert s == s[..|s| - 1] + [s[|s| - 1]];
  }

  lemma MultisetCut<T>(s: seq<T>, k: nat)
    requires k <= |s|
    ensures multiset(s[..k]) + multiset(s[k..]) == multiset(s)
  {
    assert s == s[..k] + s[k..];
  }

  lemma SameElements<T>(a: seq<T>, b: seq<T>, x: T)
    requires multiset(a) == multiset(b)
    ensures x in a <==> x in b
  {
    assert x in a <==> x in multiset(a);
    assert x in b <==> x in multiset(b);
  }

  lemma {:induction false} InsertKeepsOrder<T(!new)>(x: T, s: seq<T>, le: (T, T) -> bool)
    requires TotalPreorder(le) && InOrder(s, le)
    ensures InOrder(Insert(x, s, le), le)
  {
    if s == [] {
    } else if le(x, s[0]) {
      forall i | 0 <= i < |s| ensures le(x, s[i]) {}
    } else {
      InsertKeepsOrder(x, s[1..], le);
      var t := Insert(x, s[1..], le);
      forall i | 0 <= i < |t| ensures le(s[0], t[i]) {
        InsertPermutes(x, s[1..], le);
        assert t[i] in multiset(t);
        assert t[i] == x || t[i] in s[1..];
      }
    }
  }

  lemma {:induction false} SortedInOrder<T(!new)>(s: seq<T>, le: (T, T) -> bool)
    requires TotalPreorder(le)
    ensures InOrder(Sorted(s, le), le)
  {
    if s != [] {
      SortedInOrder(s[1..], le);
      InsertKeepsOrder(s[0], Sorted(s[1..], le), le);
    }
  }

  lemma MultisetOfTail<T>(a: seq<T>)
    requires a != []
    ensures multiset(a[1..]) == multiset(a) - multiset{a[0]} && a == [a[0]] + a[1..]
  {
    assert a == [a[0]] + a[1..];
  }

  /** An ordered list is determined by its elements when the order is total. */
  lemma {:induction false} OrderedUnique<T(!new)>(a: seq<T>, b: seq<T>, le: (T, T) -> bool)
    requires TotalPreorder(le) && Antisymmetric(le)
    requires InOrder(a, le) && InOrder(b, le) && multiset(a) == multiset(b)
    ensures a == b
  {
    assert |a| == |multiset(a)| == |multiset(b)| == |b|;
    if a != [] {
      SameElements(a, b, a[0]);
      SameElements(a, b, b[0]);
      assert le(a[0], a[0]) && le(b[0], b[0]);
      assert le(a[0], b[0]) && le(b[0], a[0]);
      MultisetOfTail(a);
      MultisetOfTail(b);
      OrderedUnique(a[1..], b[1..], le);
    }
  }

  /** Sorting forgets the input order when the order is total. */
  lemma SortedForgetsInputOrder<T(!new)>(a: seq<T>, b: seq<T>, le: (T, T) -> bool)
    requires TotalPreorder(le) && Antisymmetric(le) && multiset(a) == multiset(b)
    ensures Sorted(a, le) == Sorted(b, le)
  {
    SortedPermutes(a, le);
    SortedPermutes(b, le);
    SortedInOrder(a, le);
    SortedInOrder(b, le);
    OrderedUnique(Sorted(a, le), Sorted(b, le), le);
  }

  predicate Tie<T>(x: T, y: T, le: (T, T) -> bool) {
    le(x, y) && le(y, x)
  }

  /** The elements that tie with x, in their order. */
  function Ties<T>(s: seq<T>, x: T, le: (T, T) -> bool): seq<T> {
    if s == [] then []
    else (if Tie(x, s[0], le) then [s[0]] else []) + Ties(s[1..], x, le)
  }

  lemma TiesCons<T>(y: T, s: seq<T>, x: T, le: (T, T) -> bool)
    ensures Ties([y] + s, x, le) == (if Tie(x, y, le) then [y] else []) + Ties(s, x, le)
  {
    assert ([y] + s)[1..] == s;
  }

  lemma TieIsOrdered<T(!new)>(x: T, y: T, z: T, le: (T, T) -> bool)
    requires TotalPreorder(le)
    ensures Tie(x, y, le) && Tie(x, z, le) ==> le(y, z)
  {
  }

  lemma {:induction false} InsertBeforeTies<T(!new)>(y: T, s: seq<T>, x: T, le: (T, T) -> bool)
    requires TotalPreorder(le)
    ensures Ties(Insert(y, s, le), x, le) == (if Tie(x, y, le) then [y] else []) + Ties(s, x, le)
  {
    if s == [] || le(y, s[0]) {
      TiesCons(y, s, x, le);
    } else {
      InsertBeforeTies(y, s[1..], x, le);
      TiesCons(s[0], Insert(y, s[1..], le), x, le);
      TieIsOrdered(x, y, s[0], le);
      var mine, first := if Tie(x, y, le) then [y] else [], if Tie(x, s[0], le) then [s[0]] else [];
      assert mine == [] || first == [];
      assert first + (mine + Ties(s[1..], x, le)) == mine + (first + Ties(s[1..], x, le));
    }
  }

  /** Sorting is stable: elements that tie keep their order. */
  lemma {:induction false} SortedKeepsTies<T(!new)>(s: seq<T>, x: T, le: (T, T) -> bool)
    requires TotalPreorder(le)
    ensures Ties(Sorted(s, le), x, le) == Ties(s, x, le)
  {
    if s != [] {
      SortedKeepsTies(s[1..], x, le);
      InsertBeforeTies(s[0], Sorted(s[1..], le), x, le);
    }
  }

  // ---------- sums that forget the order ----------

  function SumBy<T>(s: seq<T>, f: T -> int): int {
    if s == [] then 0 else f(s[0]) + SumBy(s[1..], f)
  }

  lemma {:induction false} SumBySnoc<T>(s: seq<T>, x: T, f: T -> int)
    ensures SumBy(s + [x], f) == SumBy(s, f) + f(x)
  {
    if s == [] {
      assert [] + [x] == [x];
    } else {
      SumBySnoc(s[1..], x, f);
      assert (s + [x])[1..] == s[1..] + [x];
    }
  }

  lemma {:induction false} InsertKeepsSum<T>(x: T, s: seq<T>, le: (T, T) -> bool, f: T -> int)
    ensures SumBy(Insert(x, s, le), f) == f(x) + SumBy(s, f)
  {
    if s == [] || le(x, s[0]) {
      assert ([x] + s)[1..] == s;
    } else {
      InsertKeepsSum(x, s[1..], le, f);
      var t := Insert(x, s[1..], le);
      assert ([s[0]] + t)[1..] == t;
    }
  }

  lemma {:induction false} SortedKeepsSum<T>(s: seq<T>, le: (T, T) -> bool, f: T -> int)
    ensures SumBy(Sorted(s, le), f) == SumBy(s, f)
  {
    if s != [] {
      SortedKeepsSum(s[1..], le, f);
      InsertKeepsSum(s[0], Sorted(s[1..], le), le, f);
    }
  }

  lemma {:induction false} SumByAppend<T>(a: seq<T>, b: seq<T>, f: T -> int)
    ensures SumBy(a + b, f) == SumBy(a, f) + SumBy(b, f)
  {
    if a == [] {
      assert a + b == b;
    } else {
      SumByAppend(a[1..], b, f);
      assert (a + b)[1..] == a[1..] + b;
    }
  }

  lemma SumByWithout<T>(b: seq<T>, i: nat, f: T -> int)
    requires i < |b|
    ensures SumBy(b, f) == f(b[i]) + SumBy(b[..i] + b[i + 1..], f)
  {
    SumByAppend(b[..i], b[i + 1..], f);
    SumByAppend(b[..i], b[i..], f);
    assert b == b[..i] + b[i..] && b[i..][1..] == b[i + 1..];
  }

  lemma Without<T>(a: seq<T>, b: seq<T>, i: nat)
    requires a != [] && i < |b| && b[i] == a[0] && multiset(a) == multiset(b)
    ensures multiset(a[1..]) == multiset(b[..i] + b[i + 1..])
  {
    assert a == [a[0]] + a[1..];
    assert b == b[..i] + [b[i]] + b[i + 1..];
    assert multiset(b) == multiset(b[..i]) + multiset{b[i]} + multiset(b[i + 1..]);
    assert multiset(a) == multiset{a[0]} + multiset(a[1..]);
    assert multiset(b[..i] + b[i + 1..]) == multiset(b) - multiset{b[i]};
  }

  /** Two rearrangements of each other have the same sum, also under two functions that agree on the elements. */
  lemma {:induction false} SumByPermutes<T>(a: seq<T>, b: seq<T>, f: T -> int, g: T -> int)
    requires multiset(a) == multiset(b) && forall x :: x in a ==> f(x) == g(x)
    ensures SumBy(a, f) == SumBy(b, g)
  {
    if a == [] {
      assert |multiset(b)| == 0;
    } else {
      SameElements(a, b, a[0]);
      var i :| 0 <= i < |b| && b[i] == a[0];
      Without(a, b, i);
      SumByPermutes(a[1..], b[..i] + b[i + 1..], f, g);
      SumByWithout(b, i, g);
    }
  }
}
