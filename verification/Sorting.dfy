/** A stable insertion sort standing for Python's `sorted`, with the facts its callers use. */
module Sorting {

  ghost predicate TotalPreorder<T(!new)>(le: (T, T) -> bool) {
    && (forall x, y :: le(x, y) || le(y, x))
    && (forall x, y, z :: le(x, y) && le(y, z) ==> le(x, z))
  }

  ghost predicate SortedBy<T>(le: (T, T) -> bool, s: seq<T>) {
    forall i, j :: 0 <= i < j < |s| ==> le(s[i], s[j])
  }

  function Insert<T>(x: T, s: seq<T>, le: (T, T) -> bool): seq<T> {
    if s == [] || le(x, s[0]) then [x] + s else [s[0]] + Insert(x, s[1..], le)
  }

  function Sort<T>(s: seq<T>, le: (T, T) -> bool): seq<T> {
    if s == [] then [] else Insert(s[0], Sort(s[1..], le), le)
  }

  lemma {:induction false} InsertPermutes<T>(x: T, s: seq<T>, le: (T, T) -> bool)
    ensures multiset(Insert(x, s, le)) == multiset{x} + multiset(s)
  {
    if s == [] || le(x, s[0]) {
      assert multiset([x] + s) == multiset{x} + multiset(s);
    } else {
      InsertPermutes(x, s[1..], le);
      assert s == [s[0]] + s[1..];
    }
  }

  /** Sorting only permutes, whatever the comparison. */
  lemma {:induction false} SortPermutes<T>(s: seq<T>, le: (T, T) -> bool)
    ensures multiset(Sort(s, le)) == multiset(s)
    ensures |Sort(s, le)| == |s|
    ensures forall x :: x in Sort(s, le) <==> x in s
  {
    if s != [] {
      SortPermutes(s[1..], le);
      InsertPermutes(s[0], Sort(s[1..], le), le);
      assert s == [s[0]] + s[1..];
    }
    SameMultiset(Sort(s, le), s);
  }

  lemma {:induction false} InsertMember<T>(x: T, s: seq<T>, le: (T, T) -> bool, y: T)
    requires y in Insert(x, s, le)
    ensures y == x || y in s
  {
    if s != [] && !le(x, s[0]) && y != s[0] {
      InsertMember(x, s[1..], le, y);
    }
  }

  lemma {:induction false} InsertOrders<T(!new)>(x: T, s: seq<T>, le: (T, T) -> bool)
    requires TotalPreorder(le) && SortedBy(le, s)
    ensures SortedBy(le, Insert(x, s, le))
  {
    if s != [] && !le(x, s[0]) {
      InsertOrders(x, s[1..], le);
      var t := Insert(x, s[1..], le);
      forall y | y in t ensures le(s[0], y) {
        InsertMember(x, s[1..], le, y);
      }
      assert forall j :: 0 <= j < |t| ==> t[j] in t;
    }
  }

  /** Under a total preorder the result is in order. */
  lemma {:induction false} SortOrders<T(!new)>(s: seq<T>, le: (T, T) -> bool)
    requires TotalPreorder(le)
    ensures SortedBy(le, Sort(s, le))
  {
    if s != [] {
      SortOrders(s[1..], le);
      InsertOrders(s[0], Sort(s[1..], le), le);
    }
  }

  /** The elements of `s` that tie with `x`, in order. */
  function Ties<T>(x: T, s: seq<T>, le: (T, T) -> bool): seq<T> {
    if s == [] then [] else (if le(x, s[0]) && le(s[0], x) then [s[0]] else []) + Ties(x, s[1..], le)
  }

  /** Inserting an element puts it before those it ties with, and keeps the others' order. */
  lemma {:induction false} InsertTies<T(!new)>(x: T, y: T, s: seq<T>, le: (T, T) -> bool)
    requires TotalPreorder(le)
    ensures Ties(x, Insert(y, s, le), le) == Ties(x, [y] + s, le)
  {
    assert ([y] + s)[1..] == s;
    if s != [] && !le(y, s[0]) {
      var head := s[0];
      var t := [head] + Insert(y, s[1..], le);
      assert t[1..] == Insert(y, s[1..], le);
      InsertTies(x, y, s[1..], le);
      assert ([y] + s[1..])[1..] == s[1..];
      assert le(x, y) && le(y, x) ==> !(le(x, head) && le(head, x));
    }
  }

  /** Under a total preorder, elements that tie keep their order. */
  lemma {:induction false} SortStable<T(!new)>(x: T, s: seq<T>, le: (T, T) -> bool)
    requires TotalPreorder(le)
    ensures Ties(x, Sort(s, le), le) == Ties(x, s, le)
  {
    if s != [] {
      SortStable(x, s[1..], le);
      InsertTies(x, s[0], Sort(s[1..], le), le);
      var t := [s[0]] + Sort(s[1..], le);
      assert t[1..] == Sort(s[1..], le);
    }
  }

  lemma SameMultiset<T>(a: seq<T>, b: seq<T>)
    requires multiset(a) == multiset(b)
    ensures |a| == |b|
    ensures forall x :: x in a <==> x in b
  {
    assert |multiset(a)| == |a|;
    assert |multiset(b)| == |b|;
    forall x ensures x in a <==> x in b {
      assert x in a <==> x in multiset(a);
      assert x in b <==> x in multiset(b);
    }
  }

  /** An already ordered sequence is left alone. */
  lemma {:induction false} SortFixed<T>(s: seq<T>, le: (T, T) -> bool)
    requires SortedBy(le, s)
    ensures Sort(s, le) == s
  {
    if s != [] {
      SortFixed(s[1..], le);
    }
  }
}
