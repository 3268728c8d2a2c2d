/**
 * The search space of `_exhaustive`: every way of choosing `k` disjoint groups of `tp` ids,
 * in the order the anchored recursion visits them.
 */
module Partitions {
  import opened Arithmetic
  import opened Common
  import opened Combinations

  type Group = seq<int>

  /** The partitions reachable from `remaining` when `k` groups are still to be chosen. */
  function Enumerate(tp: nat, k: nat, remaining: seq<int>): seq<seq<Group>>
    requires tp >= 1
    decreases |remaining|
  {
    if k == 0 then [[]]
    else if |remaining| < Times(tp, k) then []
    else
      Anchored(tp, k, remaining, Choose(remaining[1..], tp - 1))
      + if |remaining| > Times(tp, k) then Enumerate(tp, k, remaining[1..]) else []
  }

  /** The partitions whose first group is the smallest id completed by one of `combos`. */
  function Anchored(tp: nat, k: nat, ids: seq<int>, combos: seq<seq<int>>): seq<seq<Group>>
    requires tp >= 1 && k >= 1 && ids != []
    decreases |ids|, |combos|
  {
    if combos == [] then []
    else
      Prepend([ids[0]] + combos[0], Enumerate(tp, k - 1, Without(ids[1..], combos[0])))
      + Anchored(tp, k, ids, combos[1..])
  }

  /**
   * A choice of disjoint groups written in its one canonical form: every group increasing, and
   * the groups ordered by their smallest member.
   */
  ghost predicate Canonical(tp: nat, ids: seq<int>, p: seq<Group>) {
    && (forall g :: g in p ==> |g| == tp && Increasing(g) && Subset(g, ids))
    && (forall i, j :: 0 <= i < j < |p| ==> Disjoint(p[i], p[j]) && HeadBefore(p[i], p[j]))
  }

  ghost predicate HeadBefore(a: Group, b: Group) {
    a != [] && b != [] && a[0] < b[0]
  }

  /** Lexicographic order on partitions: the first differing group decides. */
  ghost predicate PartAt(p: seq<Group>, q: seq<Group>, i: nat) {
    i < |p| && i < |q| && p[..i] == q[..i] && LexLess(p[i], q[i])
  }

  ghost predicate PartLess(p: seq<Group>, q: seq<Group>) {
    exists i: nat :: PartAt(p, q, i)
  }

  ghost predicate PartSorted(l: seq<seq<Group>>) {
    forall i, j :: 0 <= i < j < |l| ==> PartLess(l[i], l[j])
  }

  // ------------------------------------------------------------------ soundness

  lemma CanonicalCons(tp: nat, ids: seq<int>, g: Group, left: seq<int>, p: seq<Group>)
    requires |g| == tp >= 1 && Increasing(g) && Subset(g, ids)
    requires Canonical(tp, left, p)
    requires forall x :: x in left ==> x in ids && x !in g && g[0] < x
    ensures Canonical(tp, ids, [g] + p)
  {
    var q := [g] + p;
    forall h | h in q ensures |h| == tp && Increasing(h) && Subset(h, ids) {
      if h != g {
        assert h in p && Subset(h, left);
      }
    }
    forall i, j | 0 <= i < j < |q| ensures Disjoint(q[i], q[j]) && HeadBefore(q[i], q[j]) {
      assert q[j] == p[j - 1] && p[j - 1] in p;
      if i == 0 {
        var head := q[j][0];
        assert head in q[j];
      }
    }
  }

  ghost predicate AllCanonical(tp: nat, k: nat, ids: seq<int>, l: seq<seq<Group>>) {
    forall p :: p in l ==> |p| == k && Canonical(tp, ids, p)
  }

  /** Every enumerated partition is a canonical choice of `k` disjoint groups. */
  lemma {:induction false} EnumerateSound(tp: nat, k: nat, ids: seq<int>)
    requires tp >= 1 && Increasing(ids)
    ensures AllCanonical(tp, k, ids, Enumerate(tp, k, ids))
    decreases |ids|
  {
    if k > 0 && |ids| >= Times(tp, k) {
      var combos := Choose(ids[1..], tp - 1);
      CombosFit(tp, ids);
      AnchoredSound(tp, k, ids, combos);
      if |ids| > Times(tp, k) {
        IncreasingTail(ids);
        EnumerateSound(tp, k, ids[1..]);
        WidenJoin(tp, k, ids, Anchored(tp, k, ids, combos), Enumerate(tp, k, ids[1..]));
      } else {
        assert Enumerate(tp, k, ids) == Anchored(tp, k, ids, combos);
      }
    }
  }

  lemma WidenJoin(tp: nat, k: nat, ids: seq<int>, first: seq<seq<Group>>, skip: seq<seq<Group>>)
    requires ids != [] && AllCanonical(tp, k, ids, first) && AllCanonical(tp, k, ids[1..], skip)
    ensures AllCanonical(tp, k, ids, first + skip)
  {
    forall p | p in first + skip ensures |p| == k && Canonical(tp, ids, p) {
      if p in skip {
        CanonicalWiden(tp, ids[1..], ids, p);
      }
    }
  }

  /** Each combination completes the smallest id to a group of `tp`. */
  ghost predicate Completes(tp: nat, ids: seq<int>, c: seq<int>)
    requires ids != []
  {
    |c| + 1 == tp && Increasing(c) && Subset(c, ids[1..])
  }

  lemma CombosFit(tp: nat, ids: seq<int>)
    requires tp >= 1 && ids != [] && Increasing(ids)
    ensures forall c :: c in Choose(ids[1..], tp - 1) ==> Completes(tp, ids, c)
  {
    IncreasingTail(ids);
    var combos := Choose(ids[1..], tp - 1);
    forall c | c in combos ensures Completes(tp, ids, c) {
      var m :| 0 <= m < |combos| && combos[m] == c;
      ChooseSound(ids[1..], tp - 1, m);
    }
  }

  lemma {:induction false} AnchoredSound(tp: nat, k: nat, ids: seq<int>, combos: seq<seq<int>>)
    requires tp >= 1 && k >= 1 && ids != [] && Increasing(ids)
    requires forall c :: c in combos ==> Completes(tp, ids, c)
    ensures AllCanonical(tp, k, ids, Anchored(tp, k, ids, combos))
    decreases |ids|, |combos|
  {
    if combos != [] {
      var c := combos[0];
      assert Completes(tp, ids, c);
      IncreasingTail(ids);
      var left := Without(ids[1..], c);
      WithoutIncreasing(ids[1..], c);
      hide Completes, Canonical, AllCanonical, Without, Increasing, Enumerate;
      EnumerateSound(tp, k - 1, left);
      BlockSound(tp, k, ids, c, Enumerate(tp, k - 1, left));
      AnchoredSound(tp, k, ids, combos[1..]);
      JoinCanonical(tp, k, ids, Prepend([ids[0]] + c, Enumerate(tp, k - 1, left)), Anchored(tp, k, ids, combos[1..]));
    } else {
      assert Anchored(tp, k, ids, combos) == [];
    }
  }

  lemma BlockSound(tp: nat, k: nat, ids: seq<int>, c: seq<int>, l: seq<seq<Group>>)
    requires tp >= 1 && k >= 1 && ids != [] && Increasing(ids) && Completes(tp, ids, c)
    requires AllCanonical(tp, k - 1, Without(ids[1..], c), l)
    ensures AllCanonical(tp, k, ids, Prepend([ids[0]] + c, l))
  {
    IncreasingTail(ids);
    IncreasingCons(ids[0], c);
    var block := Prepend([ids[0]] + c, l);
    forall p | p in block ensures |p| == k && Canonical(tp, ids, p) {
      var i :| 0 <= i < |block| && block[i] == p;
      assert l[i] in l;
      CanonicalCons(tp, ids, [ids[0]] + c, Without(ids[1..], c), l[i]);
    }
  }

  lemma JoinCanonical(tp: nat, k: nat, ids: seq<int>, a: seq<seq<Group>>, b: seq<seq<Group>>)
    requires AllCanonical(tp, k, ids, a) && AllCanonical(tp, k, ids, b)
    ensures AllCanonical(tp, k, ids, a + b)
  {
  }

  lemma CanonicalWiden(tp: nat, ids: seq<int>, wider: seq<int>, p: seq<Group>)
    requires Canonical(tp, ids, p) && Subset(ids, wider)
    ensures Canonical(tp, wider, p)
  {
  }

  // ------------------------------------------------------------------ completeness

  /** Disjoint groups need as many ids as they have members. */
  lemma {:induction false} CanonicalFits(tp: nat, ids: seq<int>, p: seq<Group>)
    requires tp >= 1 && Increasing(ids) && Canonical(tp, ids, p)
    ensures Times(tp, |p|) <= |ids|
    decreases |p|
  {
    if p != [] {
      assert p[0] in p;
      var left := Without(ids, p[0]);
      WithoutSize(ids, p[0]);
      WithoutIncreasing(ids, p[0]);
      CanonicalTail(tp, ids, left, p);
      CanonicalFits(tp, left, p[1..]);
    }
  }

  lemma CanonicalTail(tp: nat, ids: seq<int>, left: seq<int>, p: seq<Group>)
    requires tp >= 1 && p != [] && Canonical(tp, ids, p)
    requires forall x :: x in ids && x !in p[0] && p[0][0] < x ==> x in left
    ensures Canonical(tp, left, p[1..])
  {
    forall g | g in p[1..] ensures Subset(g, left) {
      var i :| 0 <= i < |p[1..]| && p[1..][i] == g;
      assert p[i + 1] == g && p[i + 1] in p;
      assert Disjoint(p[0], p[i + 1]) && HeadBefore(p[0], p[i + 1]);
      forall x | x in g ensures x in left {
        var m :| 0 <= m < |g| && g[m] == x;
        assert m > 0 ==> g[0] < g[m];
      }
    }
  }

  /** No canonical choice of `k` disjoint groups is missed. */
  lemma {:induction false} EnumerateComplete(tp: nat, ids: seq<int>, p: seq<Group>)
    requires tp >= 1 && Increasing(ids) && Canonical(tp, ids, p)
    ensures p in Enumerate(tp, |p|, ids)
    decreases |ids|
  {
    hide *;
    if p == [] {
      NothingToChoose(tp, ids);
    } else {
      CanonicalFits(tp, ids, p);
      CanonicalFirstExists(tp, ids, p);
      var rest := ids[1..];
      if p[0][0] == ids[0] {
        var c := CanonicalFirst(tp, ids, p);
        EnumerateComplete(tp, Without(rest, c), p[1..]);
        EnumerateHasAnchored(tp, ids, c, p);
      } else {
        IncreasingTail(ids);
        CanonicalSkip(tp, ids, p);
        CanonicalFits(tp, rest, p);
        EnumerateComplete(tp, rest, p);
        EnumerateHasSkipped(tp, |p|, ids, p);
      }
    }
  }

  lemma NothingToChoose(tp: nat, ids: seq<int>)
    requires tp >= 1
    ensures [] in Enumerate(tp, 0, ids)
  {
    assert Enumerate(tp, 0, ids) == [[]];
  }

  lemma CanonicalFirstExists(tp: nat, ids: seq<int>, p: seq<Group>)
    requires tp >= 1 && p != [] && Canonical(tp, ids, p)
    ensures ids != [] && p[0] != []
  {
    var g := p[0];
    assert g in p && g[0] in g;
  }

  lemma EnumerateAnchors(tp: nat, k: nat, ids: seq<int>, p: seq<Group>)
    requires tp >= 1 && k >= 1 && ids != [] && Times(tp, k) <= |ids|
    requires p in Anchored(tp, k, ids, Choose(ids[1..], tp - 1))
    ensures p in Enumerate(tp, k, ids)
  {
    hide Anchored, Choose, Times;
  }

  lemma EnumerateHasAnchored(tp: nat, ids: seq<int>, c: seq<int>, p: seq<Group>)
    requires tp >= 1 && p != [] && ids != [] && Times(tp, |p|) <= |ids|
    requires p[0] == [ids[0]] + c && c in Choose(ids[1..], tp - 1)
    requires p[1..] in Enumerate(tp, |p| - 1, Without(ids[1..], c))
    ensures p in Enumerate(tp, |p|, ids)
  {
    hide Enumerate, Anchored, Choose, Times, Without;
    AnchoredComplete(tp, |p|, ids, Choose(ids[1..], tp - 1), c, p[1..]);
    assert p == [[ids[0]] + c] + p[1..];
    EnumerateAnchors(tp, |p|, ids, p);
  }

  lemma EnumerateHasSkipped(tp: nat, k: nat, ids: seq<int>, p: seq<Group>)
    requires tp >= 1 && k >= 1 && Times(tp, k) < |ids|
    requires p in Enumerate(tp, k, ids[1..])
    ensures p in Enumerate(tp, k, ids)
  {
  }

  /** A partition whose first group holds the smallest id: that group is the id and a combination. */
  lemma CanonicalFirst(tp: nat, ids: seq<int>, p: seq<Group>) returns (c: seq<int>)
    requires tp >= 1 && Increasing(ids) && ids != [] && p != [] && Canonical(tp, ids, p)
    requires p[0] != [] && p[0][0] == ids[0]
    ensures p[0] == [ids[0]] + c && c in Choose(ids[1..], tp - 1)
    ensures Increasing(Without(ids[1..], c))
    ensures Canonical(tp, Without(ids[1..], c), p[1..])
  {
    assert p[0] in p;
    c := p[0][1..];
    IncreasingTail(ids);
    IncreasingTail(p[0]);
    assert p[0] == [ids[0]] + c;
    assert Subset(c, ids[1..]);
    ChooseComplete(ids[1..], c);
    WithoutIncreasing(ids[1..], c);
    CanonicalTail(tp, ids, Without(ids[1..], c), p);
  }

  lemma CanonicalSkip(tp: nat, ids: seq<int>, p: seq<Group>)
    requires tp >= 1 && Increasing(ids) && ids != [] && p != [] && Canonical(tp, ids, p)
    requires p[0] != [] && p[0][0] != ids[0]
    ensures Canonical(tp, ids[1..], p)
  {
    IncreasingTail(ids);
    assert p[0] in p;
    var head := p[0][0];
    assert head in p[0] && head in ids;
    forall g | g in p ensures Subset(g, ids[1..]) {
      var i :| 0 <= i < |p| && p[i] == g;
      assert i > 0 ==> HeadBefore(p[0], p[i]);
      forall x | x in g ensures x in ids[1..] {
        var m :| 0 <= m < |g| && g[m] == x;
        assert m > 0 ==> g[0] < g[m];
      }
    }
  }

  lemma {:induction false} AnchoredComplete(
      tp: nat, k: nat, ids: seq<int>, combos: seq<seq<int>>, c: seq<int>, p: seq<Group>)
    requires tp >= 1 && k >= 1 && ids != [] && c in combos
    requires p in Enumerate(tp, k - 1, Without(ids[1..], c))
    ensures [[ids[0]] + c] + p in Anchored(tp, k, ids, combos)
    decreases |combos|
  {
    var l := Enumerate(tp, k - 1, Without(ids[1..], combos[0]));
    var block := Prepend([ids[0]] + combos[0], l);
    if c == combos[0] {
      var i :| 0 <= i < |l| && l[i] == p;
      assert block[i] == [[ids[0]] + c] + p;
      assert Anchored(tp, k, ids, combos)[i] == block[i];
    } else {
      AnchoredComplete(tp, k, ids, combos[1..], c, p);
    }
  }

  // ------------------------------------------------------------------ order

  lemma PartPrepend(g: Group, p: seq<Group>, q: seq<Group>)
    requires PartLess(p, q)
    ensures PartLess([g] + p, [g] + q)
  {
    var i: nat :| PartAt(p, q, i);
    assert ([g] + p)[..i + 1] == [g] + p[..i];
    assert ([g] + q)[..i + 1] == [g] + q[..i];
    assert PartAt([g] + p, [g] + q, i + 1);
  }

  lemma PartHead(p: seq<Group>, q: seq<Group>)
    requires p != [] && q != [] && LexLess(p[0], q[0])
    ensures PartLess(p, q)
  {
    assert PartAt(p, q, 0);
  }

  /** The enumeration is in strict lexicographic order, so it visits nothing twice. */
  lemma {:induction false} EnumerateSorted(tp: nat, k: nat, ids: seq<int>)
    requires tp >= 1 && Increasing(ids)
    ensures PartSorted(Enumerate(tp, k, ids))
    decreases |ids|
  {
    if k > 0 && |ids| >= Times(tp, k) {
      IncreasingTail(ids);
      var combos := Choose(ids[1..], tp - 1);
      ChooseLexSorted(ids[1..], tp - 1);
      CombosFit(tp, ids);
      AnchoredSorted(tp, k, ids, combos);
      if |ids| > Times(tp, k) {
        EnumerateSorted(tp, k, ids[1..]);
        EnumerateSound(tp, k, ids[1..]);
        var first, skip := Anchored(tp, k, ids, combos), Enumerate(tp, k, ids[1..]);
        forall i, j | 0 <= i < |first| && 0 <= j < |skip| ensures PartLess(first[i], skip[j]) {
          var _ := AnchoredHead(tp, k, ids, combos, i);
          assert skip[j] in skip;
          SkipAfter(tp, ids, first[i], skip[j]);
        }
        SortedJoin(first, skip);
      }
    }
  }

  lemma SortedJoin(a: seq<seq<Group>>, b: seq<seq<Group>>)
    requires PartSorted(a) && PartSorted(b)
    requires forall i, j :: 0 <= i < |a| && 0 <= j < |b| ==> PartLess(a[i], b[j])
    ensures PartSorted(a + b)
  {
  }

  lemma SkipAfter(tp: nat, ids: seq<int>, p: seq<Group>, q: seq<Group>)
    requires tp >= 1 && ids != [] && Increasing(ids) && p != [] && q != []
    requires p[0] != [] && p[0][0] == ids[0]
    requires Canonical(tp, ids[1..], q)
    ensures PartLess(p, q)
  {
    IncreasingTail(ids);
    assert q[0] in q;
    var head := q[0][0];
    assert head in q[0];
    LexHead(p[0], q[0]);
    PartHead(p, q);
  }

  lemma {:induction false} AnchoredSorted(tp: nat, k: nat, ids: seq<int>, combos: seq<seq<int>>)
    requires tp >= 1 && k >= 1 && ids != [] && Increasing(ids) && LexSorted(combos)
    requires forall c :: c in combos ==> Completes(tp, ids, c)
    ensures PartSorted(Anchored(tp, k, ids, combos))
    decreases |ids|, |combos|
  {
    if combos != [] {
      IncreasingTail(ids);
      var left := Without(ids[1..], combos[0]);
      WithoutIncreasing(ids[1..], combos[0]);
      EnumerateSorted(tp, k - 1, left);
      AnchoredSorted(tp, k, ids, combos[1..]);
      var l := Enumerate(tp, k - 1, left);
      var g := [ids[0]] + combos[0];
      var block, later := Prepend(g, l), Anchored(tp, k, ids, combos[1..]);
      forall i, j | 0 <= i < j < |block| ensures PartLess(block[i], block[j]) {
        PartPrepend(g, l[i], l[j]);
      }
      forall i, j | 0 <= i < |block| && 0 <= j < |later| ensures PartLess(block[i], later[j]) {
        var m := AnchoredHead(tp, k, ids, combos[1..], j);
        assert LexLess(combos[0], combos[m + 1]);
        LexPrepend(ids[0], combos[0], combos[m + 1]);
        PartHead(block[i], later[j]);
      }
      SortedJoin(block, later);
    }
  }

  /** The group that opens an anchored partition comes from one of the combinations. */
  lemma {:induction false} AnchoredHead(tp: nat, k: nat, ids: seq<int>, combos: seq<seq<int>>, i: nat)
    returns (m: nat)
    requires tp >= 1 && k >= 1 && ids != []
    requires i < |Anchored(tp, k, ids, combos)|
    ensures m < |combos|
    ensures
      var p := Anchored(tp, k, ids, combos)[i];
      p != [] && p[0] == [ids[0]] + combos[m]
    decreases |combos|
  {
    var n := |Enumerate(tp, k - 1, Without(ids[1..], combos[0]))|;
    if i < n {
      m := 0;
    } else {
      m := AnchoredHead(tp, k, ids, combos[1..], i - n);
      m := m + 1;
    }
  }

  /** With enough ids there is something to enumerate. */
  lemma {:induction false} EnumerateNonEmpty(tp: nat, k: nat, ids: seq<int>)
    requires tp >= 1 && Increasing(ids) && Times(tp, k) <= |ids|
    ensures Enumerate(tp, k, ids) != []
    decreases |ids|
  {
    if k > 0 {
      IncreasingTail(ids);
      var rest := ids[1..];
      ChooseNonEmpty(rest, tp - 1);
      ChooseSound(rest, tp - 1, 0);
      var c := Choose(rest, tp - 1)[0];
      WithoutIncreasing(rest, c);
      WithoutSize(rest, c);
      EnumerateNonEmpty(tp, k - 1, Without(rest, c));
    }
  }
}
