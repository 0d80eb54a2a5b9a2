/**
 * Sorting versions by their precedence. Without local labels the order is
 * antisymmetric, so every sorted arrangement of the same versions is the
 * same sequence.
 */
module VersionSort {
  import opened Wrappers
  import opened Versions

  predicate Sorted(s: seq<Version>)
  {
    forall i, j | 0 <= i < j < |s| :: Leq(s[i], s[j])
  }

  predicate NoLocals(s: seq<Version>)
  {
    forall i | 0 <= i < |s| :: s[i].local.None?
  }

  /** Adjacent order is enough, by transitivity. */
  lemma {:induction false} SortedFromAdjacent(s: seq<Version>)
    requires forall i | 0 <= i < |s| - 1 :: Leq(s[i], s[i + 1])
    ensures Sorted(s)
    decreases |s|
  {
    if |s| > 1 {
      SortedFromAdjacent(s[1..]);
      forall j | 0 < j < |s| ensures Leq(s[0], s[j]) {
        if j > 1 {
          assert s[j] == s[1..][j - 1];
          LeqTransitive(s[0], s[1], s[j]);
        }
      }
      forall i, j | 0 <= i < j < |s| ensures Leq(s[i], s[j]) {
        if i > 0 {
          assert s[i] == s[1..][i - 1] && s[j] == s[1..][j - 1];
        }
      }
    }
  }

  function Insert(x: Version, s: seq<Version>): (r: seq<Version>)
    requires Sorted(s)
    ensures Sorted(r) && multiset(r) == multiset(s) + multiset{x}
  {
    if s == [] then [x]
    else if Leq(x, s[0]) then
      BelowHeadBelowAll(x, s);
      SortedCons(x, s);
      [x] + s
    else
      LeqTotal(x, s[0]);
      var t := Insert(x, s[1..]);
      HeadBelowInserted(x, s, t);
      SortedCons(s[0], t);
      assert s == [s[0]] + s[1..];
      [s[0]] + t
  }

  lemma SortedCons(h: Version, s: seq<Version>)
    requires Sorted(s) && forall j | 0 <= j < |s| :: Leq(h, s[j])
    ensures Sorted([h] + s)
  {
    forall i, j | 0 <= i < j < |[h] + s| ensures Leq(([h] + s)[i], ([h] + s)[j]) {
      assert ([h] + s)[j] == s[j - 1];
      if i > 0 { assert ([h] + s)[i] == s[i - 1]; }
    }
  }

  lemma BelowHeadBelowAll(x: Version, s: seq<Version>)
    requires Sorted(s) && s != [] && Leq(x, s[0])
    ensures forall j | 0 <= j < |s| :: Leq(x, s[j])
  {
    forall j | 0 < j < |s| ensures Leq(x, s[j]) { LeqTransitive(x, s[0], s[j]); }
  }

  /** The head of a sorted list lies below everything the rest becomes once `x`, above the head, is inserted. */
  lemma HeadBelowInserted(x: Version, s: seq<Version>, t: seq<Version>)
    requires Sorted(s) && s != [] && Leq(s[0], x)
    requires multiset(t) == multiset(s[1..]) + multiset{x}
    ensures forall j | 0 <= j < |t| :: Leq(s[0], t[j])
  {
    forall j | 0 <= j < |t| ensures Leq(s[0], t[j]) {
      assert t[j] in multiset(t);
      if t[j] in multiset(s[1..]) {
        var k :| 0 <= k < |s[1..]| && s[1..][k] == t[j];
        assert s[k + 1] == t[j];
      }
    }
  }

  /** Insertion sort, standing for the library sort: ordered, and a permutation of its input. */
  function Sort(s: seq<Version>): (r: seq<Version>)
    ensures Sorted(r) && multiset(r) == multiset(s)
  {
    if s == [] then []
    else
      assert s == [s[0]] + s[1..];
      Insert(s[0], Sort(s[1..]))
  }

  /** The first of a sorted sequence precedes every element of it. */
  lemma FirstIsLeast(s: seq<Version>, x: Version)
    requires Sorted(s) && x in multiset(s)
    ensures Leq(s[0], x)
  {
    var k :| 0 <= k < |s| && s[k] == x;
    if k > 0 {
    } else {
      LeqReflexive(x);
    }
  }

  lemma SameHead(a: seq<Version>, b: seq<Version>)
    requires Sorted(a) && Sorted(b) && multiset(a) == multiset(b) && NoLocals(a) && a != []
    ensures b != [] && a[0] == b[0]
  {
    assert a[0] in multiset(b) && b != [];
    assert b[0] in multiset(a);
    FirstIsLeast(b, a[0]);
    FirstIsLeast(a, b[0]);
    var k :| 0 <= k < |a| && a[k] == b[0];
    LeqAntisymmetric(a[0], b[0]);
    assert a[0].local.None? && a[k].local.None?;
    assert a[0] == Public(a[0]) == Public(b[0]) == b[0];
  }

  lemma SameTail(a: seq<Version>, b: seq<Version>)
    requires multiset(a) == multiset(b) && a != [] && b != [] && a[0] == b[0]
    ensures multiset(a[1..]) == multiset(b[1..])
  {
    assert a == [a[0]] + a[1..] && b == [b[0]] + b[1..];
    assert multiset(a[1..]) == multiset(a) - multiset{a[0]};
    assert multiset(b[1..]) == multiset(b) - multiset{b[0]};
  }

  /** Two sorted arrangements of the same versions without local labels are equal. */
  lemma {:induction false} SortedUnique(a: seq<Version>, b: seq<Version>)
    requires Sorted(a) && Sorted(b) && multiset(a) == multiset(b) && NoLocals(a)
    ensures a == b
    decreases |a|
  {
    if a == [] {
      assert |b| == |multiset(b)| == 0;
    } else {
      SameHead(a, b);
      SameTail(a, b);
      assert Sorted(a[1..]) && Sorted(b[1..]) && NoLocals(a[1..]) by {
        forall i | 0 <= i < |a| - 1 ensures a[1..][i] == a[i + 1] {}
        forall i | 0 <= i < |b| - 1 ensures b[1..][i] == b[i + 1] {}
      }
      SortedUnique(a[1..], b[1..]);
      assert a == [a[0]] + a[1..] && b == [b[0]] + b[1..];
    }
  }

  /** Sorting any arrangement of versions without local labels gives the one sorted order. */
  lemma SortIsUnique(p: seq<Version>, expected: seq<Version>)
    requires Sorted(expected) && NoLocals(expected) && multiset(p) == multiset(expected)
    ensures Sort(p) == expected
  {
    SortedUnique(expected, Sort(p));
  }

  /** An ordered sequence followed by an ordered sequence that starts no earlier is ordered. */
  lemma SortedConcat(a: seq<Version>, b: seq<Version>)
    requires Sorted(a) && Sorted(b)
    requires a != [] && b != [] ==> Leq(a[|a| - 1], b[0])
    ensures Sorted(a + b)
  {
    var s := a + b;
    forall i, j | 0 <= i < j < |s| ensures Leq(s[i], s[j]) {
      if j < |a| {
        assert s[i] == a[i] && s[j] == a[j];
      } else if i >= |a| {
        assert s[i] == b[i - |a|] && s[j] == b[j - |a|];
      } else {
        assert s[i] == a[i] && s[j] == b[j - |a|];
        if i < |a| - 1 {
          LeqTransitive(a[i], a[|a| - 1], b[0]);
        }
        if j > |a| {
          LeqTransitive(a[i], b[0], b[j - |a|]);
        }
      }
    }
  }

  /** An equal or a preceding pair is in order. */
  lemma OrderedPair(v: Version, w: Version)
    requires v == w || Precedes(v, w)
    ensures Leq(v, w)
  {
    if v == w {
      LeqReflexive(v);
    } else {
      PrecedesIsLess(v, w);
      LeqTotal(v, w);
    }
  }

  /** Neighbours in a sorted list: equal, or the first strictly before the second. */
  predicate InOrder(v: Version, w: Version) { v == w || Precedes(v, w) }

  lemma SortedFromInOrder(s: seq<Version>)
    requires forall i | 0 <= i < |s| - 1 :: InOrder(s[i], s[i + 1])
    ensures Sorted(s)
  {
    forall i | 0 <= i < |s| - 1 ensures Leq(s[i], s[i + 1]) {
      OrderedPair(s[i], s[i + 1]);
    }
    SortedFromAdjacent(s);
  }

  lemma SortedOfEight(s: seq<Version>)
    requires |s| == 8 && InOrder(s[0], s[1]) && InOrder(s[1], s[2]) && InOrder(s[2], s[3]) && InOrder(s[3], s[4])
    requires InOrder(s[4], s[5]) && InOrder(s[5], s[6]) && InOrder(s[6], s[7])
    ensures Sorted(s)
  {
    SortedFromInOrder(s);
  }

  lemma SortedOfSix(s: seq<Version>)
    requires |s| == 6 && InOrder(s[0], s[1]) && InOrder(s[1], s[2]) && InOrder(s[2], s[3]) && InOrder(s[3], s[4])
    requires InOrder(s[4], s[5])
    ensures Sorted(s)
  {
    SortedFromInOrder(s);
  }

  function FlowSorted0(): seq<Version>
  {
    [
      Version(0, 1, 0, None, None, None),
      Version(0, 1, 0, None, None, None),
      Version(0, 1, 1, None, Some(1), None),
      Version(0, 1, 1, None, None, None),
      Version(0, 1, 1, None, None, None),
      Version(0, 2, 0, None, None, None),
      Version(0, 2, 0, None, None, None),
      Version(0, 2, 0, None, None, None)
    ]
  }

  lemma FlowSorted0IsSorted()
    ensures Sorted(FlowSorted0())
  {
    SortedOfEight(FlowSorted0());
  }

  function FlowSorted1(): seq<Version>
  {
    [
      Version(0, 3, 0, None, Some(1), None),
      Version(0, 3, 0, None, None, None),
      Version(0, 3, 0, None, None, None),
      Version(0, 3, 0, None, None, None),
      Version(0, 3, 0, None, None, None),
      Version(0, 3, 1, Some(Pre(Alpha, 0)), None, None),
      Version(0, 3, 1, Some(Pre(Alpha, 0)), None, None),
      Version(0, 3, 1, Some(Pre(Alpha, 0)), None, None)
    ]
  }

  lemma FlowSorted1IsSorted()
    ensures Sorted(FlowSorted1())
  {
    SortedOfEight(FlowSorted1());
  }

  function FlowSorted2(): seq<Version>
  {
    [
      Version(0, 3, 1, Some(Pre(Alpha, 0)), None, None),
      Version(0, 3, 1, Some(Pre(Alpha, 1)), None, None),
      Version(0, 3, 1, Some(Pre(Alpha, 1)), None, None),
      Version(0, 3, 1, Some(Pre(Alpha, 1)), None, None),
      Version(0, 3, 1, None, None, None),
      Version(0, 3, 1, None, None, None),
      Version(0, 3, 1, None, None, None),
      Version(0, 3, 2, None, None, None)
    ]
  }

  lemma FlowSorted2IsSorted()
    ensures Sorted(FlowSorted2())
  {
    SortedOfEight(FlowSorted2());
  }

  function FlowSorted3(): seq<Version>
  {
    [
      Version(0, 4, 2, None, None, None),
      Version(1, 0, 0, Some(Pre(Alpha, 0)), None, None),
      Version(1, 0, 0, Some(Pre(Alpha, 0)), None, None),
      Version(1, 0, 0, Some(Pre(Alpha, 1)), None, None),
      Version(1, 0, 0, Some(Pre(Alpha, 1)), None, None),
      Version(1, 0, 0, Some(Pre(Alpha, 1)), None, None),
      Version(1, 0, 0, Some(Pre(Alpha, 1)), None, None),
      Version(1, 0, 0, Some(Pre(Alpha, 2)), Some(0), None)
    ]
  }

  lemma FlowSorted3IsSorted()
    ensures Sorted(FlowSorted3())
  {
    SortedOfEight(FlowSorted3());
  }

  function FlowSorted4(): seq<Version>
  {
    [
      Version(1, 0, 0, Some(Pre(Alpha, 2)), Some(0), None),
      Version(1, 0, 0, Some(Pre(Alpha, 2)), Some(1), None),
      Version(1, 0, 0, Some(Pre(Alpha, 2)), None, None),
      Version(1, 0, 0, Some(Pre(Alpha, 3)), Some(0), None),
      Version(1, 0, 0, Some(Pre(Alpha, 3)), Some(0), None),
      Version(1, 0, 0, Some(Pre(Alpha, 3)), Some(1), None),
      Version(1, 0, 0, Some(Pre(Beta, 0)), None, None),
      Version(1, 0, 0, Some(Pre(Beta, 0)), None, None)
    ]
  }

  lemma FlowSorted4IsSorted()
    ensures Sorted(FlowSorted4())
  {
    SortedOfEight(FlowSorted4());
  }

  function FlowSorted5(): seq<Version>
  {
    [
      Version(1, 0, 0, Some(Pre(Beta, 0)), None, None),
      Version(1, 0, 0, Some(Pre(Beta, 1)), None, None),
      Version(1, 0, 0, Some(Pre(Beta, 1)), None, None),
      Version(1, 0, 0, Some(Pre(Rc, 0)), None, None),
      Version(1, 0, 0, Some(Pre(Rc, 0)), None, None),
      Version(1, 0, 0, Some(Pre(Rc, 0)), None, None),
      Version(1, 0, 0, Some(Pre(Rc, 0)), None, None),
      Version(1, 0, 0, Some(Pre(Rc, 1)), Some(1), None)
    ]
  }

  lemma FlowSorted5IsSorted()
    ensures Sorted(FlowSorted5())
  {
    SortedOfEight(FlowSorted5());
  }

  function FlowSorted6(): seq<Version>
  {
    [
      Version(1, 0, 0, Some(Pre(Rc, 1)), None, None),
      Version(1, 0, 0, None, None, None),
      Version(1, 0, 0, None, None, None),
      Version(1, 0, 1, None, None, None),
      Version(1, 0, 1, None, None, None),
      Version(1, 0, 2, None, None, None),
      Version(1, 0, 2, None, None, None),
      Version(1, 1, 0, None, None, None)
    ]
  }

  lemma FlowSorted6IsSorted()
    ensures Sorted(FlowSorted6())
  {
    SortedOfEight(FlowSorted6());
  }

  function FlowSorted7(): seq<Version>
  {
    [
      Version(1, 1, 0, None, None, None),
      Version(1, 2, 0, None, None, None),
      Version(1, 2, 0, None, None, None),
      Version(1, 2, 1, None, None, None),
      Version(1, 2, 1, None, None, None),
      Version(2, 0, 0, None, None, None)
    ]
  }

  lemma FlowSorted7IsSorted()
    ensures Sorted(FlowSorted7())
  {
    SortedOfSix(FlowSorted7());
  }

  function FlowSegment(k: nat): seq<Version>
  {
    if k == 0 then FlowSorted0()
    else if k == 1 then FlowSorted1()
    else if k == 2 then FlowSorted2()
    else if k == 3 then FlowSorted3()
    else if k == 4 then FlowSorted4()
    else if k == 5 then FlowSorted5()
    else if k == 6 then FlowSorted6()
    else if k == 7 then FlowSorted7()
    else []
  }

  lemma FlowSegmentIsSorted(k: nat)
    ensures Sorted(FlowSegment(k)) && (k < 8 ==> |FlowSegment(k)| > 0)
  {
    if k == 0 { FlowSorted0IsSorted(); }
    else if k == 1 { FlowSorted1IsSorted(); }
    else if k == 2 { FlowSorted2IsSorted(); }
    else if k == 3 { FlowSorted3IsSorted(); }
    else if k == 4 { FlowSorted4IsSorted(); }
    else if k == 5 { FlowSorted5IsSorted(); }
    else if k == 6 { FlowSorted6IsSorted(); }
    else if k == 7 { FlowSorted7IsSorted(); }
  }

  /** The expected order of the simple-flow versions, from segment k on. */
  function FlowSortedFrom(k: nat): seq<Version>
    decreases 8 - k
  {
    if k >= 8 then [] else FlowSegment(k) + FlowSortedFrom(k + 1)
  }

  /** The expected order of the simple-flow versions, as the sortable case lists it. */
  function FlowSorted(): seq<Version>
  {
    FlowSortedFrom(0)
  }

  lemma {:induction false} FlowSortedFromIsSorted(k: nat)
    ensures Sorted(FlowSortedFrom(k))
    decreases 8 - k
  {
    if k < 8 {
      FlowSortedFromIsSorted(k + 1);
      FlowSortedStep(k);
    }
  }

  lemma FlowSortedStep(k: nat)
    requires k < 8 && Sorted(FlowSortedFrom(k + 1))
    ensures Sorted(FlowSortedFrom(k))
  {
    var a, b := FlowSegment(k), FlowSortedFrom(k + 1);
    FlowSegmentIsSorted(k);
    if k + 1 < 8 {
      FlowBoundary(k);
      FlowSortedFromHead(k + 1);
    }
    SortedConcat(a, b);
  }

  lemma FlowSortedFromHead(k: nat)
    requires k < 8
    ensures FlowSortedFrom(k) != [] && FlowSortedFrom(k)[0] == FlowSegment(k)[0]
  {
    FlowSegmentIsSorted(k);
    HeadOfConcat(FlowSegment(k), FlowSortedFrom(k + 1));
  }

  lemma HeadOfConcat(a: seq<Version>, b: seq<Version>)
    requires a != []
    ensures (a + b)[0] == a[0]
  {
  }

  /** The last version of a segment is at most the first of the next. */
  lemma FlowBoundary(k: nat)
    requires k + 1 < 8
    ensures FlowSegment(k) != [] && FlowSegment(k + 1) != []
    ensures Leq(FlowSegment(k)[|FlowSegment(k)| - 1], FlowSegment(k + 1)[0])
  {
    var a, b := FlowSegment(k), FlowSegment(k + 1);
    if k == 0 { assert a == FlowSorted0() && b == FlowSorted1(); AdjacentSegments(a, b); }
    else if k == 1 { assert a == FlowSorted1() && b == FlowSorted2(); AdjacentSegments(a, b); }
    else if k == 2 { assert a == FlowSorted2() && b == FlowSorted3(); AdjacentSegments(a, b); }
    else if k == 3 { assert a == FlowSorted3() && b == FlowSorted4(); AdjacentSegments(a, b); }
    else if k == 4 { assert a == FlowSorted4() && b == FlowSorted5(); AdjacentSegments(a, b); }
    else if k == 5 { assert a == FlowSorted5() && b == FlowSorted6(); AdjacentSegments(a, b); }
    else { assert a == FlowSorted6() && b == FlowSorted7(); AdjacentSegments(a, b); }
  }

  lemma AdjacentSegments(a: seq<Version>, b: seq<Version>)
    requires a != [] && b != [] && (a[|a| - 1] == b[0] || Precedes(a[|a| - 1], b[0]))
    ensures Leq(a[|a| - 1], b[0])
  {
    OrderedPair(a[|a| - 1], b[0]);
  }

  lemma FlowSortedIsSorted()
    ensures Sorted(FlowSorted())
  {
    FlowSortedFromIsSorted(0);
  }

  lemma {:induction false} FlowSortedFromHasNoLocals(k: nat)
    ensures NoLocals(FlowSortedFrom(k))
    decreases 8 - k
  {
    if k < 8 {
      FlowSortedFromHasNoLocals(k + 1);
      FlowSegmentHasNoLocals(k);
      NoLocalsConcat(FlowSegment(k), FlowSortedFrom(k + 1));
    }
  }

  lemma FlowSegmentHasNoLocals(k: nat)
    ensures NoLocals(FlowSegment(k))
  {
    if k == 0 { NoLocalsOfEight(FlowSorted0()); }
    else if k == 1 { NoLocalsOfEight(FlowSorted1()); }
    else if k == 2 { NoLocalsOfEight(FlowSorted2()); }
    else if k == 3 { NoLocalsOfEight(FlowSorted3()); }
    else if k == 4 { NoLocalsOfEight(FlowSorted4()); }
    else if k == 5 { NoLocalsOfEight(FlowSorted5()); }
    else if k == 6 { NoLocalsOfEight(FlowSorted6()); }
    else if k == 7 { NoLocalsOfSix(FlowSorted7()); }
  }

  lemma NoLocalsOfEight(s: seq<Version>)
    requires |s| == 8 && s[0].local.None? && s[1].local.None? && s[2].local.None? && s[3].local.None?
    requires s[4].local.None? && s[5].local.None? && s[6].local.None? && s[7].local.None?
    ensures NoLocals(s)
  {
  }

  lemma NoLocalsOfSix(s: seq<Version>)
    requires |s| == 6 && s[0].local.None? && s[1].local.None? && s[2].local.None? && s[3].local.None?
    requires s[4].local.None? && s[5].local.None?
    ensures NoLocals(s)
  {
  }

  lemma NoLocalsConcat(a: seq<Version>, b: seq<Version>)
    requires NoLocals(a) && NoLocals(b)
    ensures NoLocals(a + b)
  {
    forall i | 0 <= i < |a + b| ensures (a + b)[i].local.None? {
      if i >= |a| {
        assert (a + b)[i] == b[i - |a|];
      }
    }
  }

  /**
   * The sortable case: whatever order the simple-flow versions arrive in,
   * sorting them gives the listed order.
   */
  lemma SortableFlow(p: seq<Version>)
    requires multiset(p) == multiset(FlowSorted())
    ensures Sort(p) == FlowSorted()
  {
    FlowSortedIsSorted();
    FlowSortedFromHasNoLocals(0);
    SortIsUnique(p, FlowSorted());
  }
}
