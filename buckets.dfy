/**
 * The changes of one release, grouped by change type. Python keeps them in an
 * insertion-ordered dictionary from change type to a list of changes; here
 * that dictionary is a sequence of buckets, one per change type, in the order
 * the types were first met.
 */
module Buckets {
  import opened Wrappers

  /** One changelog entry, with the commit it came from. */
  datatype Change = Change(
    changeType: string,
    scope: Option<string>,
    breaking: Option<string>,
    message: string,
    sha1: string,
    parents: seq<string>,
    author: string,
    authorEmail: string)

  /** The changes of one change type, in the order they were met. */
  datatype Bucket = Bucket(changeType: string, entries: seq<Change>)

  /** The change types, in dictionary order. */
  function Keys(bs: seq<Bucket>): (r: seq<string>)
    ensures |r| == |bs| && forall i | 0 <= i < |bs| :: r[i] == bs[i].changeType
  {
    if bs == [] then [] else [bs[0].changeType] + Keys(bs[1..])
  }

  /** The changes filed under `k`; none when `k` is not a change type of the release. */
  function Lookup(bs: seq<Bucket>, k: string): (r: seq<Change>)
    ensures k !in Keys(bs) ==> r == []
  {
    if bs == [] then []
    else if bs[0].changeType == k then bs[0].entries
    else Lookup(bs[1..], k)
  }

  /** The changes of type `k`, in order. */
  function OfType(cs: seq<Change>, k: string): (r: seq<Change>)
    ensures |r| <= |cs|
    ensures forall c | c in r :: c in cs && c.changeType == k
  {
    if cs == [] then []
    else (if cs[0].changeType == k then [cs[0]] else []) + OfType(cs[1..], k)
  }

  /** The number of changes in the buckets. */
  function Count(bs: seq<Bucket>): nat
  {
    if bs == [] then 0 else |bs[0].entries| + Count(bs[1..])
  }

  /**
   * A well-formed group: one bucket per change type, no bucket empty, and
   * every change in the bucket of its own type.
   */
  predicate WellFormed(bs: seq<Bucket>)
  {
    && (forall i, j | 0 <= i < j < |bs| :: bs[i].changeType != bs[j].changeType)
    && (forall i | 0 <= i < |bs| :: bs[i].entries != [])
    && (forall i, e | 0 <= i < |bs| && e in bs[i].entries :: e.changeType == bs[i].changeType)
  }

  /** Files one change under its type: at the end of its bucket, or in a new last bucket. */
  function AddChange(bs: seq<Bucket>, c: Change): (r: seq<Bucket>)
    ensures forall k :: Lookup(r, k) == Lookup(bs, k) + (if k == c.changeType then [c] else [])
    ensures Keys(r) == Keys(bs) + (if c.changeType in Keys(bs) then [] else [c.changeType])
    ensures Count(r) == Count(bs) + 1
  {
    if bs == [] then [Bucket(c.changeType, [c])]
    else if bs[0].changeType == c.changeType then [bs[0].(entries := bs[0].entries + [c])] + bs[1..]
    else
      var rest := AddChange(bs[1..], c);
      assert Keys([bs[0]] + rest) == [bs[0].changeType] + Keys(rest);
      [bs[0]] + rest
  }

  /** Files the changes one after the other. */
  function AddChanges(bs: seq<Bucket>, cs: seq<Change>): seq<Bucket>
  {
    if cs == [] then bs else AddChange(AddChanges(bs, cs[..|cs| - 1]), cs[|cs| - 1])
  }

  // ------------------------------------------------------------------ lemmas

  lemma OfTypeAppend(xs: seq<Change>, ys: seq<Change>, k: string)
    ensures OfType(xs + ys, k) == OfType(xs, k) + OfType(ys, k)
  {
    if xs != [] {
      assert (xs + ys)[1..] == xs[1..] + ys;
      OfTypeAppend(xs[1..], ys, k);
    } else {
      assert xs + ys == ys;
    }
  }

  /** Filing a list of changes puts exactly the changes of each type, in order, after those already there. */
  lemma {:induction false} LookupAddChanges(bs: seq<Bucket>, cs: seq<Change>, k: string)
    ensures Lookup(AddChanges(bs, cs), k) == Lookup(bs, k) + OfType(cs, k)
    decreases |cs|
  {
    if cs != [] {
      var init := cs[..|cs| - 1];
      var last := cs[|cs| - 1];
      assert cs == init + [last];
      OfTypeAppend(init, [last], k);
      var mid := AddChanges(bs, init);
      LookupAddChanges(bs, init, k);
      assert AddChanges(bs, cs) == AddChange(mid, last);
      assert Lookup(AddChange(mid, last), k) == Lookup(mid, k) + (if k == last.changeType then [last] else []);
      assert OfType([last], k) == if k == last.changeType then [last] else [];
    }
  }

  /** Filing a list of changes adds one entry per change. */
  lemma {:induction false} CountAddChanges(bs: seq<Bucket>, cs: seq<Change>)
    ensures Count(AddChanges(bs, cs)) == Count(bs) + |cs|
    decreases |cs|
  {
    if cs != [] {
      CountAddChanges(bs, cs[..|cs| - 1]);
    }
  }

  lemma {:induction false} AddChangesAppend(bs: seq<Bucket>, xs: seq<Change>, ys: seq<Change>)
    ensures AddChanges(bs, xs + ys) == AddChanges(AddChanges(bs, xs), ys)
    decreases |ys|
  {
    if ys == [] {
      assert xs + ys == xs;
    } else {
      var n := |ys| - 1;
      AddChangesAppend(bs, xs, ys[..n]);
      assert (xs + ys)[..|xs + ys| - 1] == xs + ys[..n];
      assert (xs + ys)[|xs + ys| - 1] == ys[n];
    }
  }

  lemma {:induction false} LookupMember(bs: seq<Bucket>, k: string, i: nat)
    requires i < |bs| && bs[i].changeType == k
    requires forall j | 0 <= j < i :: bs[j].changeType != k
    ensures Lookup(bs, k) == bs[i].entries
    decreases i
  {
    if i > 0 {
      assert bs[0].changeType != k;
      assert forall j | 0 <= j < i - 1 :: bs[1..][j] == bs[j + 1];
      LookupMember(bs[1..], k, i - 1);
    }
  }

  /** Filing a change keeps the group well formed. */
  lemma AddChangeWellFormed(bs: seq<Bucket>, c: Change)
    requires WellFormed(bs)
    ensures WellFormed(AddChange(bs, c))
  {
    AddChangeKeysDistinct(bs, c);
    AddChangeEntriesTyped(bs, c);
  }

  lemma AddChangeKeysDistinct(bs: seq<Bucket>, c: Change)
    requires WellFormed(bs)
    ensures var r := AddChange(bs, c); forall i, j | 0 <= i < j < |r| :: r[i].changeType != r[j].changeType
  {
    var r := AddChange(bs, c);
    var keys := Keys(r);
    forall i, j | 0 <= i < j < |r|
      ensures r[i].changeType != r[j].changeType
    {
      assert keys[i] == r[i].changeType && keys[j] == r[j].changeType;
      if j < |bs| {
        assert Keys(bs)[i] == bs[i].changeType && Keys(bs)[j] == bs[j].changeType;
      } else {
        assert keys[j] == c.changeType && c.changeType !in Keys(bs);
        assert keys[i] == Keys(bs)[i];
      }
    }
  }

  lemma AddChangeEntriesTyped(bs: seq<Bucket>, c: Change)
    requires WellFormed(bs)
    ensures var r := AddChange(bs, c);
            forall i | 0 <= i < |r| :: r[i].entries != [] && forall e | e in r[i].entries :: e.changeType == r[i].changeType
  {
    var r := AddChange(bs, c);
    var keys := Keys(r);
    forall i | 0 <= i < |r|
      ensures r[i].entries != [] && forall e | e in r[i].entries :: e.changeType == r[i].changeType
    {
      var k := r[i].changeType;
      assert keys[i] == k;
      LookupMember(r, k, i);
      if i < |bs| {
        assert Keys(bs)[i] == k;
        assert forall j | 0 <= j < i :: bs[j].changeType == r[j].changeType by {
          forall j | 0 <= j < i ensures bs[j].changeType == r[j].changeType {
            assert Keys(bs)[j] == keys[j];
          }
        }
        LookupMember(bs, k, i);
        assert r[i].entries == bs[i].entries + (if k == c.changeType then [c] else []);
      } else {
        assert k == c.changeType && k !in Keys(bs);
        assert r[i].entries == [c];
      }
    }
  }

  lemma {:induction false} AddChangesWellFormed(bs: seq<Bucket>, cs: seq<Change>)
    requires WellFormed(bs)
    ensures WellFormed(AddChanges(bs, cs))
    decreases |cs|
  {
    if cs != [] {
      AddChangesWellFormed(bs, cs[..|cs| - 1]);
      AddChangeWellFormed(AddChanges(bs, cs[..|cs| - 1]), cs[|cs| - 1]);
    }
  }

  /** Every change type of the filed group is the type of a filed change or was there before. */
  lemma {:induction false} KeysAddChanges(bs: seq<Bucket>, cs: seq<Change>)
    ensures forall k | k in Keys(AddChanges(bs, cs)) :: k in Keys(bs) || exists c | c in cs :: c.changeType == k
    decreases |cs|
  {
    if cs != [] {
      var init := cs[..|cs| - 1];
      KeysAddChanges(bs, init);
      forall k | k in Keys(AddChanges(bs, cs))
        ensures k in Keys(bs) || exists c | c in cs :: c.changeType == k
      {
        if k !in Keys(AddChanges(bs, init)) {
          assert k == cs[|cs| - 1].changeType;
        } else if k !in Keys(bs) {
          var c :| c in init && c.changeType == k;
          assert c in cs;
        }
      }
    }
  }
  /** Every change filed in the group. */
  function EntriesOf(bs: seq<Bucket>): set<Change>
  {
    set i, e | 0 <= i < |bs| && e in bs[i].entries :: e
  }

  lemma EntriesOfCons(b: Bucket, rest: seq<Bucket>)
    ensures EntriesOf([b] + rest) == (set e | e in b.entries) + EntriesOf(rest)
  {
    var r := [b] + rest;
    forall e | e in EntriesOf(r) ensures e in b.entries || e in EntriesOf(rest) {
      var i :| 0 <= i < |r| && e in r[i].entries;
      if i > 0 { assert rest[i - 1] == r[i]; }
    }
    forall e | e in EntriesOf(rest) ensures e in EntriesOf(r) {
      var j :| 0 <= j < |rest| && e in rest[j].entries;
      assert r[j + 1] == rest[j];
    }
    forall e | e in b.entries ensures e in EntriesOf(r) {
      assert r[0] == b;
    }
  }

  /** Filing a change adds exactly that change to the filed entries. */
  lemma EntriesAddChange(bs: seq<Bucket>, c: Change)
    ensures EntriesOf(AddChange(bs, c)) == EntriesOf(bs) + {c}
  {
    if bs == [] {
      EntriesOfCons(Bucket(c.changeType, [c]), []);
    } else {
      assert bs == [bs[0]] + bs[1..];
      EntriesOfCons(bs[0], bs[1..]);
      if bs[0].changeType == c.changeType {
        EntriesOfCons(bs[0].(entries := bs[0].entries + [c]), bs[1..]);
      } else {
        EntriesAddChange(bs[1..], c);
        EntriesOfCons(bs[0], AddChange(bs[1..], c));
      }
    }
  }

  /** Filing a list of changes adds exactly those changes. */
  lemma {:induction false} EntriesAddChanges(bs: seq<Bucket>, cs: seq<Change>)
    ensures EntriesOf(AddChanges(bs, cs)) == EntriesOf(bs) + set c | c in cs
    decreases |cs|
  {
    if cs != [] {
      var init, last := cs[..|cs| - 1], cs[|cs| - 1];
      var mid := AddChanges(bs, init);
      assert AddChanges(bs, cs) == AddChange(mid, last);
      EntriesAddChanges(bs, init);
      EntriesAddChange(mid, last);
      SetOfSnoc(cs, init, last);
    }
  }

  lemma SetOfSnoc(cs: seq<Change>, init: seq<Change>, last: Change)
    requires cs != [] && init == cs[..|cs| - 1] && last == cs[|cs| - 1]
    ensures (set c | c in cs) == (set c | c in init) + {last}
  {
    assert cs == init + [last];
  }

  // ----------------------------------------------------- filing, step by step

  /** Filing lands in the first bucket of the change's type, when there is one. */
  lemma {:induction false} AddChangeAt(bs: seq<Bucket>, c: Change, i: nat)
    requires i < |bs| && bs[i].changeType == c.changeType
    requires forall j | 0 <= j < i :: bs[j].changeType != c.changeType
    ensures AddChange(bs, c) == bs[i := Bucket(c.changeType, bs[i].entries + [c])]
    decreases i
  {
    var u := Bucket(c.changeType, bs[i].entries + [c]);
    if i == 0 {
      assert AddChange(bs, c) == [u] + bs[1..];
      UpdateAt(bs, 0, u);
    } else {
      var tail := bs[1..];
      assert AddChange(bs, c) == [bs[0]] + AddChange(tail, c);
      assert tail[i - 1] == bs[i];
      forall j | 0 <= j < i - 1 ensures tail[j].changeType != c.changeType {
        assert tail[j] == bs[j + 1];
      }
      AddChangeAt(tail, c, i - 1);
      UpdateAt(bs, i, u);
    }
  }

  /** Replacing a bucket is replacing it in the tail, past the first. */
  lemma UpdateAt(bs: seq<Bucket>, i: nat, u: Bucket)
    requires i < |bs|
    ensures i == 0 ==> [u] + bs[1..] == bs[i := u]
    ensures i > 0 ==> [bs[0]] + bs[1..][i - 1 := u] == bs[i := u]
  {
  }

  /** A change of a new type opens a bucket at the end. */
  lemma {:induction false} AddChangeNew(bs: seq<Bucket>, c: Change)
    requires forall j | 0 <= j < |bs| :: bs[j].changeType != c.changeType
    ensures AddChange(bs, c) == bs + [Bucket(c.changeType, [c])]
    decreases |bs|
  {
    if bs != [] {
      assert forall j | 0 <= j < |bs| - 1 :: bs[1..][j] == bs[j + 1];
      AddChangeNew(bs[1..], c);
      assert [bs[0]] + (bs[1..] + [Bucket(c.changeType, [c])]) == bs + [Bucket(c.changeType, [c])];
    }
  }

  /** Files a change the way a dictionary of lists does: find the type's list, append; else add the list. */
  method FileChange(bs: seq<Bucket>, c: Change) returns (r: seq<Bucket>)
    ensures r == AddChange(bs, c)
  {
    var i := 0;
    while i < |bs| && bs[i].changeType != c.changeType
      invariant 0 <= i <= |bs|
      invariant forall j | 0 <= j < i :: bs[j].changeType != c.changeType
    {
      i := i + 1;
    }
    if i < |bs| {
      AddChangeAt(bs, c, i);
      r := bs[i := Bucket(c.changeType, bs[i].entries + [c])];
    } else {
      AddChangeNew(bs, c);
      r := bs + [Bucket(c.changeType, [c])];
    }
  }
}
