/**
 * The ordering cases of the changelog tests, on the change-type skeleton of
 * the first five releases of the reference tree (version, date and the
 * change types in their original order; the entries play no part in the
 * ordering and are left empty).
 */
module ChangeOrderVectors {
  import opened Wrappers
  import opened Buckets
  import opened ReleaseTree
  import opened ChangeOrder

  function Types(ks: seq<string>): seq<Bucket>
  {
    seq(|ks|, i requires 0 <= i < |ks| => Bucket(ks[i], []))
  }

  function Skeleton(): seq<Release>
  {
    [ Release("v1.2.0", "2019-04-19", Types(["feat"]), map[]),
      Release("v1.1.1", "2019-04-18", Types(["refactor", "fix"]), map[]),
      Release("v1.1.0", "2019-04-14", Types(["feat", "fix", "refactor"]), map[]),
      Release("v1.0.0", "2019-03-01", Types(["refactor", "BREAKING CHANGE"]), map[]),
      Release("1.0.0b2", "2019-01-18", [], map[]) ]
  }

  lemma KeysOfTypes(ks: seq<string>)
    ensures Keys(Types(ks)) == ks
  {
  }

  const BreakingThenRefactor := ["BREAKING CHANGE", "refactor"]

  lemma PresentSteps(order: seq<string>, keys: seq<string>)
    requires order != []
    ensures Present(order, keys) == (if order[0] in keys then [order[0]] else []) + Present(order[1..], keys)
  {
  }

  lemma AbsentSteps(keys: seq<string>, order: seq<string>)
    requires keys != []
    ensures Absent(keys, order) == (if keys[0] in order then [] else [keys[0]]) + Absent(keys[1..], order)
  {
  }

  lemma OrderedFeatFixRefactor()
    ensures Present(BreakingThenRefactor, ["feat", "fix", "refactor"]) + Absent(["feat", "fix", "refactor"], BreakingThenRefactor)
         == ["refactor", "feat", "fix"]
  {
    var o, k := BreakingThenRefactor, ["feat", "fix", "refactor"];
    assert o[0] !in k;
    PresentSteps(o, k);
    PresentSteps(o[1..], k);
    assert o[1..][1..] == [];
    assert Present(o, k) == ["refactor"];
    AbsentSteps(k, o);
    AbsentSteps(k[1..], o);
    AbsentSteps(k[1..][1..], o);
    assert k[1..][1..][1..] == [];
    assert Absent(k, o) == ["feat", "fix"];
  }

  lemma OrderedRefactorBreaking()
    ensures Present(BreakingThenRefactor, ["refactor", "BREAKING CHANGE"]) + Absent(["refactor", "BREAKING CHANGE"], BreakingThenRefactor)
         == ["BREAKING CHANGE", "refactor"]
  {
    var o, k := BreakingThenRefactor, ["refactor", "BREAKING CHANGE"];
    PresentSteps(o, k);
    PresentSteps(o[1..], k);
    assert o[1..][1..] == [];
    assert Present(o, k) == ["BREAKING CHANGE", "refactor"];
    AbsentSteps(k, o);
    AbsentSteps(k[1..], o);
    assert k[1..][1..] == [];
    assert Absent(k, o) == [];
  }

  lemma OrderedFeat()
    ensures Present(BreakingThenRefactor, ["feat"]) + Absent(["feat"], BreakingThenRefactor) == ["feat"]
  {
    var o, k := BreakingThenRefactor, ["feat"];
    assert o[0] !in k && o[1] !in k;
    PresentSteps(o, k);
    PresentSteps(o[1..], k);
    assert o[1..][1..] == [];
    AbsentSteps(k, o);
    assert k[1..] == [];
  }

  lemma OrderedRefactorFix()
    ensures Present(BreakingThenRefactor, ["refactor", "fix"]) + Absent(["refactor", "fix"], BreakingThenRefactor)
         == ["refactor", "fix"]
  {
    var o, k := BreakingThenRefactor, ["refactor", "fix"];
    assert o[0] !in k;
    PresentSteps(o, k);
    PresentSteps(o[1..], k);
    assert o[1..][1..] == [];
    AbsentSteps(k, o);
    AbsentSteps(k[1..], o);
    assert k[1..][1..] == [];
  }

  // Listing "BREAKING CHANGE" and "refactor" moves them to the front of each
  // release, in that order; the other types keep their order.

  lemma FirstReleaseOrdered(t: seq<Release>, order: seq<string>)
    requires t == Skeleton() && order == BreakingThenRefactor
    ensures !HasDuplicates(order) && Keys(GenerateOrderedTree(t, order).value[0].changes) == ["feat"]
  {
    assert !HasDuplicates(order);
    assert t[0].changes == Types(["feat"]);
    ReleaseOrdered(t, order, 0, ["feat"]);
    OrderedFeat();
  }

  lemma SecondReleaseOrdered(t: seq<Release>, order: seq<string>)
    requires t == Skeleton() && order == BreakingThenRefactor
    ensures !HasDuplicates(order) && Keys(GenerateOrderedTree(t, order).value[1].changes) == ["refactor", "fix"]
  {
    assert !HasDuplicates(order);
    assert t[1].changes == Types(["refactor", "fix"]);
    ReleaseOrdered(t, order, 1, ["refactor", "fix"]);
    OrderedRefactorFix();
  }

  lemma ThirdReleaseOrdered(t: seq<Release>, order: seq<string>)
    requires t == Skeleton() && order == BreakingThenRefactor
    ensures !HasDuplicates(order) && Keys(GenerateOrderedTree(t, order).value[2].changes) == ["refactor", "feat", "fix"]
  {
    assert !HasDuplicates(order);
    assert t[2].changes == Types(["feat", "fix", "refactor"]);
    ReleaseOrdered(t, order, 2, ["feat", "fix", "refactor"]);
    OrderedFeatFixRefactor();
  }

  lemma FourthReleaseOrdered(t: seq<Release>, order: seq<string>)
    requires t == Skeleton() && order == BreakingThenRefactor
    ensures !HasDuplicates(order) && Keys(GenerateOrderedTree(t, order).value[3].changes) == ["BREAKING CHANGE", "refactor"]
  {
    assert !HasDuplicates(order);
    assert t[3].changes == Types(["refactor", "BREAKING CHANGE"]);
    ReleaseOrdered(t, order, 3, ["refactor", "BREAKING CHANGE"]);
    OrderedRefactorBreaking();
  }

  lemma ReleaseOrdered(t: seq<Release>, order: seq<string>, i: nat, ks: seq<string>)
    requires !HasDuplicates(order) && i < |t| && t[i].changes == Types(ks)
    ensures Keys(GenerateOrderedTree(t, order).value[i].changes) == Present(order, ks) + Absent(ks, order)
  {
    OrderedTreeReleases(t, order, i);
    KeysOfTypes(ks);
  }

  /** An empty list gives the tree back unchanged. */
  lemma EmptyOrderKeepsTree()
    ensures GenerateOrderedTree(Skeleton(), []) == Success(Skeleton())
  {
    OrderedTreeByNothing(Skeleton());
  }

  /** A list naming "feat" twice is refused with the duplicated-types message. */
  lemma DuplicatedTypeRefused()
    ensures GenerateOrderedTree(Skeleton(), ["BREAKING CHANGE", "feat", "refactor", "feat"])
         == Failure("Change types contain duplicated types")
  {
    var order := ["BREAKING CHANGE", "feat", "refactor", "feat"];
    assert order[1] == order[3];
  }

  // ------------------------------------------------------ the reordering check

  /**
   * The test's check of an ordered tree against the original: for every
   * release whose version is a key of `expected`, the ordered change types are
   * the expected sorted list and the original ones the expected original list;
   * a release whose version is not a key passes unconditionally.
   */
  predicate ReorderingCheck(original: seq<Release>, result: seq<Release>,
                            expected: map<string, (seq<string>, seq<string>)>)
  {
    forall i | 0 <= i < |result| :: CheckedAt(original, result, expected, i)
  }

  /** The check on the release at position `i`. */
  predicate CheckedAt(original: seq<Release>, result: seq<Release>,
                      expected: map<string, (seq<string>, seq<string>)>, i: nat)
    requires i < |result|
  {
    result[i].version in expected ==>
      i < |original|
      && Keys(original[i].changes) == expected[result[i].version].0
      && Keys(result[i].changes) == expected[result[i].version].1
  }

  /** The expectations as the test writes them: keyed by versions without the "v". */
  function ExpectedAsWritten(): map<string, (seq<string>, seq<string>)>
  {
    map["1.1.0" := (["feat", "fix", "refactor"], ["refactor", "feat", "fix"]),
        "1.0.0" := (["refactor", "BREAKING CHANGE"], ["BREAKING CHANGE", "refactor"])]
  }

  /** The expectations keyed by the versions the tree actually carries. */
  function ExpectedIntended(): map<string, (seq<string>, seq<string>)>
  {
    map["v1.1.0" := (["feat", "fix", "refactor"], ["refactor", "feat", "fix"]),
        "v1.0.0" := (["refactor", "BREAKING CHANGE"], ["BREAKING CHANGE", "refactor"])]
  }

  /**
   * As written, the check accepts every result that keeps the tree's versions,
   * whatever order its change types are in: no version of the tree is a key.
   */
  lemma AsWrittenCheckAcceptsAnyOrder(result: seq<Release>)
    requires |result| == |Skeleton()|
    requires forall i | 0 <= i < |result| :: result[i].version == Skeleton()[i].version
    ensures ReorderingCheck(Skeleton(), result, ExpectedAsWritten())
  {
    var t := Skeleton();
    forall i | 0 <= i < |result| ensures result[i].version !in ExpectedAsWritten() {
      assert result[i].version == t[i].version;
    }
  }

  /** With "v"-prefixed keys the check holds for the ordered tree ... */
  lemma IntendedCheckHolds(t: seq<Release>, order: seq<string>)
    requires t == Skeleton() && order == BreakingThenRefactor
    ensures ReorderingCheck(t, GenerateOrderedTree(t, order).value, ExpectedIntended())
  {
    assert !HasDuplicates(order);
    var r := GenerateOrderedTree(t, order).value;
    var e := ExpectedIntended();
    assert |r| == |t| == 5;
    SkippedRelease(t, r, e, 0);
    SkippedRelease(t, r, e, 1);
    ThirdReleaseChecked(t, order, r, e);
    FourthReleaseChecked(t, order, r, e);
    SkippedRelease(t, r, e, 4);
    FiveChecked(t, r, e);
  }

  lemma ThirdReleaseChecked(t: seq<Release>, order: seq<string>, r: seq<Release>, e: map<string, (seq<string>, seq<string>)>)
    requires t == Skeleton() && order == BreakingThenRefactor && e == ExpectedIntended()
    requires !HasDuplicates(order) && r == GenerateOrderedTree(t, order).value
    ensures |r| == 5 && CheckedAt(t, r, e, 2)
  {
    ThirdReleaseOrdered(t, order);
    ExpectedFor(t, e, 2, ["feat", "fix", "refactor"], ["refactor", "feat", "fix"]);
    CheckedRelease(t, r, e, 2, ["feat", "fix", "refactor"], ["refactor", "feat", "fix"]);
  }

  lemma FourthReleaseChecked(t: seq<Release>, order: seq<string>, r: seq<Release>, e: map<string, (seq<string>, seq<string>)>)
    requires t == Skeleton() && order == BreakingThenRefactor && e == ExpectedIntended()
    requires !HasDuplicates(order) && r == GenerateOrderedTree(t, order).value
    ensures |r| == 5 && CheckedAt(t, r, e, 3)
  {
    FourthReleaseOrdered(t, order);
    ExpectedFor(t, e, 3, ["refactor", "BREAKING CHANGE"], ["BREAKING CHANGE", "refactor"]);
    CheckedRelease(t, r, e, 3, ["refactor", "BREAKING CHANGE"], ["BREAKING CHANGE", "refactor"]);
  }

  /** The skeleton's third and fourth releases and what the check expects of them. */
  lemma ExpectedFor(t: seq<Release>, e: map<string, (seq<string>, seq<string>)>, i: nat,
                    before: seq<string>, after: seq<string>)
    requires t == Skeleton() && e == ExpectedIntended()
    requires (i == 2 && before == ["feat", "fix", "refactor"] && after == ["refactor", "feat", "fix"])
          || (i == 3 && before == ["refactor", "BREAKING CHANGE"] && after == ["BREAKING CHANGE", "refactor"])
    ensures i < |t| && t[i].changes == Types(before) && t[i].version in e && e[t[i].version] == (before, after)
  {
  }

  lemma FiveChecked(t: seq<Release>, r: seq<Release>, e: map<string, (seq<string>, seq<string>)>)
    requires |r| == 5
    requires CheckedAt(t, r, e, 0) && CheckedAt(t, r, e, 1) && CheckedAt(t, r, e, 2)
    requires CheckedAt(t, r, e, 3) && CheckedAt(t, r, e, 4)
    ensures ReorderingCheck(t, r, e)
  {
    forall i | 0 <= i < |r| ensures CheckedAt(t, r, e, i) {
      assert i == 0 || i == 1 || i == 2 || i == 3 || i == 4;
    }
  }

  /** A release whose version the expectations do not name passes. */
  lemma SkippedRelease(t: seq<Release>, r: seq<Release>, e: map<string, (seq<string>, seq<string>)>, i: nat)
    requires t == Skeleton() && e == ExpectedIntended() && i < |r| && i < |t| && r[i].version == t[i].version
    requires i != 2 && i != 3
    ensures CheckedAt(t, r, e, i)
  {
    assert t[i].version !in e;
  }

  /** A release the expectations name passes when its types are ordered as expected. */
  lemma CheckedRelease(t: seq<Release>, r: seq<Release>, e: map<string, (seq<string>, seq<string>)>, i: nat,
                       before: seq<string>, after: seq<string>)
    requires i < |t| && i < |r| && r[i].version == t[i].version
    requires t[i].changes == Types(before) && Keys(r[i].changes) == after
    requires t[i].version in e && e[t[i].version] == (before, after)
    ensures CheckedAt(t, r, e, i)
  {
    KeysOfTypes(before);
  }

  /** ... and rejects the tree left in its original order. */
  lemma IntendedCheckRejectsUnordered()
    ensures !ReorderingCheck(Skeleton(), Skeleton(), ExpectedIntended())
  {
    var t := Skeleton();
    assert t[2].version == "v1.1.0";
    KeysOfTypes(["feat", "fix", "refactor"]);
    assert Keys(t[2].changes) != ["refactor", "feat", "fix"];
    assert !CheckedAt(t, t, ExpectedIntended(), 2);
  }
}
