/**
 * Reordering the change types of every release by a priority list: the
 * listed types come first, in the list's order, and the other types follow
 * in the order they already had. A priority list that names a type twice is
 * a configuration error, whatever the tree.
 */
module ChangeOrder {
  import opened Wrappers
  import opened Buckets
  import opened ReleaseTree

  predicate NoRepeats<T(==)>(s: seq<T>) { forall i, j | 0 <= i < j < |s| :: s[i] != s[j] }

  /** A list that names some type twice: its set of types is smaller than the list. */
  predicate HasDuplicates(order: seq<string>)
  {
    !NoRepeats(order)
  }

  predicate DistinctKeys(bs: seq<Bucket>)
  {
    forall i, j | 0 <= i < j < |bs| :: bs[i].changeType != bs[j].changeType
  }

  /** The first bucket of type `k`. */
  function FindBucket(bs: seq<Bucket>, k: string): (r: Option<Bucket>)
    ensures r.Some? ==> r.value in bs && r.value.changeType == k && r.value.entries == Lookup(bs, k)
    ensures r.None? <==> k !in Keys(bs)
  {
    if bs == [] then None
    else if bs[0].changeType == k then Some(bs[0])
    else FindBucket(bs[1..], k)
  }

  /** The buckets of the listed types, in the list's order. */
  function Listed(bs: seq<Bucket>, order: seq<string>): seq<Bucket>
  {
    if order == [] then []
    else (match FindBucket(bs, order[0]) case None => [] case Some(b) => [b]) + Listed(bs, order[1..])
  }

  /** The buckets of the types the list does not name, in their original order. */
  function Unlisted(bs: seq<Bucket>, order: seq<string>): seq<Bucket>
  {
    if bs == [] then []
    else (if bs[0].changeType in order then [] else [bs[0]]) + Unlisted(bs[1..], order)
  }

  function Reorder(bs: seq<Bucket>, order: seq<string>): seq<Bucket>
  {
    Listed(bs, order) + Unlisted(bs, order)
  }

  /** The listed types that occur among `keys`, in the list's order. */
  function Present(order: seq<string>, keys: seq<string>): seq<string>
  {
    if order == [] then [] else (if order[0] in keys then [order[0]] else []) + Present(order[1..], keys)
  }

  /** The `keys` the list does not name, in their order. */
  function Absent(keys: seq<string>, order: seq<string>): seq<string>
  {
    if keys == [] then [] else (if keys[0] in order then [] else [keys[0]]) + Absent(keys[1..], order)
  }

  /**
   * The tree with every release's change types reordered; a configuration
   * error, before any release is produced, when the list names a type twice.
   */
  function GenerateOrderedTree(tree: seq<Release>, order: seq<string>): (r: Result<seq<Release>>)
    ensures r.Failure? <==> HasDuplicates(order)
    ensures r.Failure? ==> r.error == "Change types contain duplicated types"
    ensures r.Success? ==> |r.value| == |tree| && forall i | 0 <= i < |tree| ::
              r.value[i].version == tree[i].version && r.value[i].date == tree[i].date
              && r.value[i].extras == tree[i].extras
  {
    if HasDuplicates(order) then Failure("Change types contain duplicated types")
    else Success(seq(|tree|, i requires 0 <= i < |tree| => tree[i].(changes := Reorder(tree[i].changes, order))))
  }

  // ------------------------------------------------------ type order

  lemma {:induction false} ListedKeys(bs: seq<Bucket>, order: seq<string>)
    ensures Keys(Listed(bs, order)) == Present(order, Keys(bs))
    decreases |order|
  {
    if order != [] {
      ListedKeys(bs, order[1..]);
      var head := match FindBucket(bs, order[0]) case None => [] case Some(b) => [b];
      KeysAppend(head, Listed(bs, order[1..]));
    }
  }

  lemma {:induction false} UnlistedKeys(bs: seq<Bucket>, order: seq<string>)
    ensures Keys(Unlisted(bs, order)) == Absent(Keys(bs), order)
    decreases |bs|
  {
    if bs != [] {
      UnlistedKeys(bs[1..], order);
      var head := if bs[0].changeType in order then [] else [bs[0]];
      KeysAppend(head, Unlisted(bs[1..], order));
      assert Keys(bs)[1..] == Keys(bs[1..]);
    }
  }

  lemma KeysAppend(xs: seq<Bucket>, ys: seq<Bucket>)
    ensures Keys(xs + ys) == Keys(xs) + Keys(ys)
  {
  }

  /** The listed types present come first, in the list's order; the others follow in their original order. */
  lemma ReorderKeys(bs: seq<Bucket>, order: seq<string>)
    ensures Keys(Reorder(bs, order)) == Present(order, Keys(bs)) + Absent(Keys(bs), order)
  {
    ListedKeys(bs, order);
    UnlistedKeys(bs, order);
    KeysAppend(Listed(bs, order), Unlisted(bs, order));
  }

  // ------------------------------------------------------ contents

  lemma {:induction false} LookupAppend(xs: seq<Bucket>, ys: seq<Bucket>, k: string)
    ensures Lookup(xs + ys, k) == if k in Keys(xs) then Lookup(xs, k) else Lookup(ys, k)
    decreases |xs|
  {
    if xs != [] {
      assert (xs + ys)[1..] == xs[1..] + ys;
      LookupAppend(xs[1..], ys, k);
      assert Keys(xs) == [xs[0].changeType] + Keys(xs[1..]);
    } else {
      assert xs + ys == ys;
    }
  }

  lemma {:induction false} LookupListed(bs: seq<Bucket>, order: seq<string>, k: string)
    ensures k in Keys(Listed(bs, order)) <==> k in order && k in Keys(bs)
    ensures k in order ==> Lookup(Listed(bs, order), k) == Lookup(bs, k)
    decreases |order|
  {
    if order != [] {
      LookupListed(bs, order[1..], k);
      var head := match FindBucket(bs, order[0]) case None => [] case Some(b) => [b];
      LookupAppend(head, Listed(bs, order[1..]), k);
      KeysAppend(head, Listed(bs, order[1..]));
      assert order == [order[0]] + order[1..];
    }
  }

  lemma {:induction false} LookupUnlisted(bs: seq<Bucket>, order: seq<string>, k: string)
    ensures k in Keys(Unlisted(bs, order)) ==> k !in order
    ensures k !in order ==> Lookup(Unlisted(bs, order), k) == Lookup(bs, k)
    decreases |bs|
  {
    if bs != [] {
      LookupUnlisted(bs[1..], order, k);
      var head := if bs[0].changeType in order then [] else [bs[0]];
      LookupAppend(head, Unlisted(bs[1..], order), k);
      KeysAppend(head, Unlisted(bs[1..], order));
    }
  }

  /** Every change type keeps exactly its changes, in their order. */
  lemma ReorderLookup(bs: seq<Bucket>, order: seq<string>, k: string)
    ensures Lookup(Reorder(bs, order), k) == Lookup(bs, k)
  {
    LookupListed(bs, order, k);
    LookupUnlisted(bs, order, k);
    LookupAppend(Listed(bs, order), Unlisted(bs, order), k);
  }

  // ------------------------------------------------------ permutation

  /** The buckets whose type the list names, in their original order. */
  function Kept(bs: seq<Bucket>, order: seq<string>): seq<Bucket>
  {
    if bs == [] then [] else (if bs[0].changeType in order then [bs[0]] else []) + Kept(bs[1..], order)
  }

  lemma {:induction false} KeptUnlisted(bs: seq<Bucket>, order: seq<string>)
    ensures multiset(Kept(bs, order)) + multiset(Unlisted(bs, order)) == multiset(bs)
    decreases |bs|
  {
    if bs != [] {
      KeptUnlisted(bs[1..], order);
      assert bs == [bs[0]] + bs[1..];
    }
  }

  lemma {:induction false} NoRepeatsMultiset<T>(s: seq<T>, x: T)
    requires NoRepeats(s)
    ensures multiset(s)[x] == if x in s then 1 else 0
    decreases |s|
  {
    if s != [] {
      NoRepeatsMultiset(s[1..], x);
      assert s == [s[0]] + s[1..];
      if x == s[0] {
        assert x !in s[1..] by {
          forall j | 0 <= j < |s[1..]| ensures s[1..][j] != x { assert s[1..][j] == s[j + 1]; }
        }
      }
    }
  }

  lemma {:induction false} KeptMembers(bs: seq<Bucket>, order: seq<string>)
    requires DistinctKeys(bs)
    ensures NoRepeats(Kept(bs, order))
    ensures forall b :: b in Kept(bs, order) <==> b in bs && b.changeType in order
    decreases |bs|
  {
    if bs != [] {
      KeptMembers(bs[1..], order);
      var rest := Kept(bs[1..], order);
      assert forall b | b in rest :: b in bs[1..];
      assert forall b | b in bs[1..] :: b.changeType != bs[0].changeType by {
        forall b | b in bs[1..] ensures b.changeType != bs[0].changeType {
          var j :| 0 <= j < |bs[1..]| && bs[1..][j] == b;
          assert bs[j + 1] == b;
        }
      }
      assert bs == [bs[0]] + bs[1..];
    }
  }

  lemma FindBucketIsMember(bs: seq<Bucket>, b: Bucket)
    requires DistinctKeys(bs) && b in bs
    ensures FindBucket(bs, b.changeType) == Some(b)
  {
    var i :| 0 <= i < |bs| && bs[i] == b;
    FindBucketAt(bs, i);
  }

  lemma {:induction false} FindBucketAt(bs: seq<Bucket>, i: nat)
    requires DistinctKeys(bs) && i < |bs|
    ensures FindBucket(bs, bs[i].changeType) == Some(bs[i])
    decreases i
  {
    if i > 0 {
      assert bs[0].changeType != bs[i].changeType;
      assert DistinctKeys(bs[1..]) by {
        forall a, c | 0 <= a < c < |bs[1..]| ensures bs[1..][a].changeType != bs[1..][c].changeType {
          assert bs[1..][a] == bs[a + 1] && bs[1..][c] == bs[c + 1];
        }
      }
      FindBucketAt(bs[1..], i - 1);
    }
  }

  lemma {:induction false} ListedMembers(bs: seq<Bucket>, order: seq<string>)
    requires DistinctKeys(bs) && !HasDuplicates(order)
    ensures NoRepeats(Listed(bs, order))
    ensures forall b :: b in Listed(bs, order) <==> b in bs && b.changeType in order
    decreases |order|
  {
    if order != [] {
      forall i, j | 0 <= i < j < |order[1..]| ensures order[1..][i] != order[1..][j] {
        assert order[1..][i] == order[i + 1] && order[1..][j] == order[j + 1];
      }
      ListedMembers(bs, order[1..]);
      var rest := Listed(bs, order[1..]);
      assert order == [order[0]] + order[1..];
      assert order[0] !in order[1..] by {
        forall j | 0 <= j < |order[1..]| ensures order[1..][j] != order[0] { assert order[1..][j] == order[j + 1]; }
      }
      forall b | b in bs && b.changeType in order ensures b in Listed(bs, order) {
        if b.changeType == order[0] {
          FindBucketIsMember(bs, b);
        }
      }
    }
  }

  /**
   * With distinct change types and a list without repeats, reordering is a
   * permutation of the release's buckets.
   */
  lemma ReorderPermutes(bs: seq<Bucket>, order: seq<string>)
    requires DistinctKeys(bs) && !HasDuplicates(order)
    ensures multiset(Reorder(bs, order)) == multiset(bs)
  {
    ListedMembers(bs, order);
    KeptMembers(bs, order);
    KeptUnlisted(bs, order);
    forall b ensures multiset(Listed(bs, order))[b] == multiset(Kept(bs, order))[b] {
      NoRepeatsMultiset(Listed(bs, order), b);
      NoRepeatsMultiset(Kept(bs, order), b);
    }
    assert multiset(Listed(bs, order)) == multiset(Kept(bs, order));
  }

  // ------------------------------------------------------ identity and stability

  lemma {:induction false} UnlistedNothing(bs: seq<Bucket>)
    ensures Unlisted(bs, []) == bs
    decreases |bs|
  {
    if bs != [] {
      UnlistedNothing(bs[1..]);
    }
  }

  /** An empty list changes nothing. */
  lemma ReorderByNothing(bs: seq<Bucket>)
    ensures Reorder(bs, []) == bs
  {
    UnlistedNothing(bs);
  }

  lemma {:induction false} FindBucketAppend(xs: seq<Bucket>, ys: seq<Bucket>, k: string)
    ensures FindBucket(xs + ys, k) == if k in Keys(xs) then FindBucket(xs, k) else FindBucket(ys, k)
    decreases |xs|
  {
    if xs != [] {
      assert (xs + ys)[1..] == xs[1..] + ys;
      FindBucketAppend(xs[1..], ys, k);
    } else {
      assert xs + ys == ys;
    }
  }

  lemma {:induction false} FindBucketListed(bs: seq<Bucket>, order: seq<string>, k: string)
    requires k in order
    ensures FindBucket(Listed(bs, order), k) == FindBucket(bs, k)
    decreases |order|
  {
    var head := match FindBucket(bs, order[0]) case None => [] case Some(b) => [b];
    FindBucketAppend(head, Listed(bs, order[1..]), k);
    if order[0] != k {
      assert k in order[1..];
      FindBucketListed(bs, order[1..], k);
    } else if FindBucket(bs, k).None? {
      LookupListed(bs, order[1..], k);
    }
  }

  lemma FindBucketReorder(bs: seq<Bucket>, order: seq<string>, k: string)
    requires k in order
    ensures FindBucket(Reorder(bs, order), k) == FindBucket(bs, k)
  {
    FindBucketListed(bs, order, k);
    FindBucketAppend(Listed(bs, order), Unlisted(bs, order), k);
    LookupListed(bs, order, k);
    LookupUnlisted(bs, order, k);
  }

  lemma {:induction false} ListedAlike(xs: seq<Bucket>, ys: seq<Bucket>, order: seq<string>, all: seq<string>)
    requires forall k | k in order :: k in all
    requires forall k | k in all :: FindBucket(xs, k) == FindBucket(ys, k)
    ensures Listed(xs, order) == Listed(ys, order)
    decreases |order|
  {
    if order != [] {
      assert order[0] in order;
      assert forall k | k in order[1..] :: k in order;
      ListedAlike(xs, ys, order[1..], all);
    }
  }

  lemma {:induction false} UnlistedAppend(xs: seq<Bucket>, ys: seq<Bucket>, order: seq<string>)
    ensures Unlisted(xs + ys, order) == Unlisted(xs, order) + Unlisted(ys, order)
    decreases |xs|
  {
    if xs != [] {
      assert (xs + ys)[1..] == xs[1..] + ys;
      UnlistedAppend(xs[1..], ys, order);
    } else {
      assert xs + ys == ys;
    }
  }

  lemma {:induction false} UnlistedOfListed(bs: seq<Bucket>, order: seq<string>, all: seq<string>)
    requires forall k | k in order :: k in all
    ensures Unlisted(Listed(bs, order), all) == []
    decreases |order|
  {
    if order != [] {
      assert order[0] in order;
      assert forall k | k in order[1..] :: k in order;
      UnlistedOfListed(bs, order[1..], all);
      var head := match FindBucket(bs, order[0]) case None => [] case Some(b) => [b];
      UnlistedAppend(head, Listed(bs, order[1..]), all);
    }
  }

  lemma {:induction false} UnlistedTwice(bs: seq<Bucket>, order: seq<string>)
    ensures Unlisted(Unlisted(bs, order), order) == Unlisted(bs, order)
    decreases |bs|
  {
    if bs != [] {
      UnlistedTwice(bs[1..], order);
      var head := if bs[0].changeType in order then [] else [bs[0]];
      UnlistedAppend(head, Unlisted(bs[1..], order), order);
    }
  }

  /** Reordering twice by the same list gives what reordering once gives. */
  lemma ReorderIdempotent(bs: seq<Bucket>, order: seq<string>)
    ensures Reorder(Reorder(bs, order), order) == Reorder(bs, order)
  {
    var l, u := Listed(bs, order), Unlisted(bs, order);
    var r := l + u;
    forall k | k in order ensures FindBucket(r, k) == FindBucket(bs, k) {
      FindBucketReorder(bs, order, k);
    }
    ListedAlike(r, bs, order, order);
    assert Listed(r, order) == l;
    UnlistedAppend(l, u, order);
    UnlistedOfListed(bs, order, order);
    UnlistedTwice(bs, order);
    assert Unlisted(r, order) == u;
  }

  // ------------------------------------------------------ the ordered tree

  /**
   * Each release of the ordered tree has the listed types first, in the
   * list's order, then the others in their original order; every type keeps
   * exactly its changes; the buckets are a permutation of the original ones.
   */
  lemma OrderedTreeReleases(tree: seq<Release>, order: seq<string>, i: nat)
    requires !HasDuplicates(order) && i < |tree|
    ensures var t := GenerateOrderedTree(tree, order).value[i].changes;
            && Keys(t) == Present(order, Keys(tree[i].changes)) + Absent(Keys(tree[i].changes), order)
            && (forall k :: Lookup(t, k) == Lookup(tree[i].changes, k))
            && (DistinctKeys(tree[i].changes) ==> multiset(t) == multiset(tree[i].changes))
  {
    var bs := tree[i].changes;
    assert GenerateOrderedTree(tree, order).value[i].changes == Reorder(bs, order);
    ReorderKeys(bs, order);
    forall k ensures Lookup(Reorder(bs, order), k) == Lookup(bs, k) {
      ReorderLookup(bs, order, k);
    }
    if DistinctKeys(bs) {
      ReorderPermutes(bs, order);
    }
  }

  /** An empty list leaves the tree as it is. */
  lemma OrderedTreeByNothing(tree: seq<Release>)
    ensures GenerateOrderedTree(tree, []) == Success(tree)
  {
    var r := GenerateOrderedTree(tree, []).value;
    forall i | 0 <= i < |tree| ensures r[i] == tree[i] {
      ReorderByNothing(tree[i].changes);
    }
    assert r == tree;
  }

  /** Ordering an ordered tree again by the same list changes nothing. */
  lemma OrderedTreeStable(tree: seq<Release>, order: seq<string>)
    requires !HasDuplicates(order)
    ensures GenerateOrderedTree(GenerateOrderedTree(tree, order).value, order) == GenerateOrderedTree(tree, order)
  {
    var once := GenerateOrderedTree(tree, order).value;
    var twice := GenerateOrderedTree(once, order).value;
    forall i | 0 <= i < |tree| ensures twice[i] == once[i] {
      ReorderIdempotent(tree[i].changes, order);
    }
    assert twice == once;
  }
}
