/** `itertools.combinations` over increasing sequences, and the lexicographic order of its output. */
module Combinations {
  import opened Common

  ghost predicate Increasing(s: seq<int>) {
    forall i, j :: 0 <= i < j < |s| ==> s[i] < s[j]
  }

  ghost predicate Subset(a: seq<int>, b: seq<int>) {
    forall x :: x in a ==> x in b
  }

  ghost predicate Disjoint(a: seq<int>, b: seq<int>) {
    forall x :: x in a ==> x !in b
  }

  function Prepend<T>(x: T, l: seq<seq<T>>): (r: seq<seq<T>>)
    ensures |r| == |l|
    ensures forall i :: 0 <= i < |r| ==> r[i] == [x] + l[i]
  {
    seq(|l|, i requires 0 <= i < |l| => [x] + l[i])
  }

  /** All `k`-element subsequences of `s`, in the order `itertools.combinations(s, k)` yields them. */
  function Choose(s: seq<int>, k: nat): seq<seq<int>> {
    if k == 0 then [[]]
    else if s == [] then []
    else Prepend(s[0], Choose(s[1..], k - 1)) + Choose(s[1..], k)
  }

  /** The elements of `s` that are not in `drop`, in order. */
  function Without(s: seq<int>, drop: seq<int>): (r: seq<int>)
    ensures |r| <= |s|
    ensures forall x :: x in r <==> x in s && x !in drop
  {
    if s == [] then []
    else if s[0] in drop then Without(s[1..], drop)
    else [s[0]] + Without(s[1..], drop)
  }

  // ------------------------------------------------------------------ lexicographic order

  ghost predicate LexAt(a: seq<int>, b: seq<int>, i: nat) {
    i < |a| && i < |b| && a[..i] == b[..i] && a[i] < b[i]
  }

  ghost predicate LexLess(a: seq<int>, b: seq<int>) {
    exists i: nat :: LexAt(a, b, i)
  }

  ghost predicate LexSorted(l: seq<seq<int>>) {
    forall i, j :: 0 <= i < j < |l| ==> LexLess(l[i], l[j])
  }

  lemma LexPrepend(x: int, a: seq<int>, b: seq<int>)
    requires LexLess(a, b)
    ensures LexLess([x] + a, [x] + b)
  {
    var i: nat :| LexAt(a, b, i);
    assert ([x] + a)[..i + 1] == [x] + a[..i];
    assert ([x] + b)[..i + 1] == [x] + b[..i];
    assert LexAt([x] + a, [x] + b, i + 1);
  }

  lemma LexHead(a: seq<int>, b: seq<int>)
    requires a != [] && b != [] && a[0] < b[0]
    ensures LexLess(a, b)
  {
    assert LexAt(a, b, 0);
  }

  // ------------------------------------------------------------------ increasing sequences

  lemma IncreasingTail(s: seq<int>)
    requires Increasing(s) && s != []
    ensures Increasing(s[1..])
    ensures forall x :: x in s[1..] ==> s[0] < x && x in s
    ensures forall x :: x in s ==> x == s[0] || x in s[1..]
  {
    forall x | x in s ensures x == s[0] || x in s[1..] {
      var i :| 0 <= i < |s| && s[i] == x;
      if i > 0 {
        assert s[1..][i - 1] == x;
      }
    }
  }

  lemma IncreasingCons(x: int, s: seq<int>)
    requires Increasing(s) && forall y :: y in s ==> x < y
    ensures Increasing([x] + s)
  {
    forall i, j | 0 <= i < j < |s| + 1 ensures ([x] + s)[i] < ([x] + s)[j] {
      assert s[j - 1] in s;
    }
  }

  lemma {:induction false} WithoutIncreasing(s: seq<int>, drop: seq<int>)
    requires Increasing(s)
    ensures Increasing(Without(s, drop))
  {
    if s != [] {
      IncreasingTail(s);
      WithoutIncreasing(s[1..], drop);
      IncreasingCons(s[0], Without(s[1..], drop));
    }
  }

  lemma IncreasingSize(s: seq<int>)
    requires Increasing(s)
    ensures |SetOf(s)| == |s|
  {
    DistinctCardinality(s);
  }

  lemma WithoutSize(s: seq<int>, drop: seq<int>)
    requires Increasing(s) && Increasing(drop) && Subset(drop, s)
    ensures |Without(s, drop)| == |s| - |drop|
  {
    WithoutIncreasing(s, drop);
    IncreasingSize(s);
    IncreasingSize(drop);
    IncreasingSize(Without(s, drop));
    assert SetOf(Without(s, drop)) == SetOf(s) - SetOf(drop);
    assert SetOf(s) == SetOf(drop) + (SetOf(s) - SetOf(drop));
  }

  // ------------------------------------------------------------------ what Choose yields

  lemma {:induction false} ChooseSound(s: seq<int>, k: nat, i: nat)
    requires Increasing(s) && i < |Choose(s, k)|
    ensures |Choose(s, k)[i]| == k
    ensures Increasing(Choose(s, k)[i])
    ensures Subset(Choose(s, k)[i], s)
  {
    if k > 0 && s != [] {
      IncreasingTail(s);
      var n := |Choose(s[1..], k - 1)|;
      if i < n {
        ChooseSound(s[1..], k - 1, i);
        IncreasingCons(s[0], Choose(s[1..], k - 1)[i]);
      } else {
        ChooseSound(s[1..], k, i - n);
      }
    }
  }

  /** Every increasing subset of `s` is among the combinations of its own size. */
  lemma {:induction false} ChooseComplete(s: seq<int>, c: seq<int>)
    requires Increasing(s) && Increasing(c) && Subset(c, s)
    ensures c in Choose(s, |c|)
  {
    if c != [] {
      var first := c[0];
      assert first in c && first in s;
      IncreasingTail(s);
      IncreasingTail(c);
      if c[0] == s[0] {
        assert Subset(c[1..], s[1..]);
        ChooseComplete(s[1..], c[1..]);
        var l := Choose(s[1..], |c| - 1);
        var i :| 0 <= i < |l| && l[i] == c[1..];
        assert Prepend(s[0], l)[i] == c;
      } else {
        assert forall x :: x in c ==> x != s[0];
        ChooseComplete(s[1..], c);
      }
    }
  }

  lemma {:induction false} ChooseLexSorted(s: seq<int>, k: nat)
    requires Increasing(s)
    ensures LexSorted(Choose(s, k))
  {
    if k > 0 && s != [] {
      IncreasingTail(s);
      var with, rest := Choose(s[1..], k - 1), Choose(s[1..], k);
      ChooseLexSorted(s[1..], k - 1);
      ChooseLexSorted(s[1..], k);
      var all, n := Choose(s, k), |with|;
      forall i, j | 0 <= i < j < |all| ensures LexLess(all[i], all[j]) {
        if j < n {
          LexPrepend(s[0], with[i], with[j]);
        } else if i < n {
          ChooseSound(s[1..], k, j - n);
          var head := rest[j - n][0];
          assert head in rest[j - n] && head in s[1..];
          LexHead(all[i], all[j]);
        }
      }
    }
  }

  lemma {:induction false} ChooseNonEmpty(s: seq<int>, k: nat)
    requires k <= |s|
    ensures Choose(s, k) != []
  {
    if k > 0 {
      ChooseNonEmpty(s[1..], k - 1);
    }
  }
}
