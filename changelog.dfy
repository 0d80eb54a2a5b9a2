/**
 * Looking tags up: the tag that points at a commit, and the window of tags a
 * changelog for a range of releases needs (the requested tags plus the next
 * older one, from which the first release's changes are measured).
 */
module Changelog {
  import opened Wrappers
  import opened Git

  /** The first tag, in the order given, whose revision is the commit's; none when no tag points at it. */
  function GetCommitTag(commit: Commit, tags: seq<Tag>): (r: Option<Tag>)
    ensures r.None? <==> forall i | 0 <= i < |tags| :: tags[i].rev != commit.rev
    ensures r.Some? ==> exists i | 0 <= i < |tags| ::
              tags[i] == r.value && r.value.rev == commit.rev
              && forall j | 0 <= j < i :: tags[j].rev != commit.rev
  {
    if tags == [] then None
    else if tags[0].rev == commit.rev then Some(tags[0])
    else
      var r := GetCommitTag(commit, tags[1..]);
      assert r.Some? ==> exists i | 0 <= i < |tags[1..]| ::
        (tags[1..][i] == r.value && forall j | 0 <= j < i :: tags[1..][j].rev != commit.rev);
      r
  }

  /** Whichever tag is the first to point at the commit is the one found. */
  lemma {:induction false} CommitTagIsFirstMatch(commit: Commit, tags: seq<Tag>, i: nat)
    requires i < |tags| && tags[i].rev == commit.rev
    requires forall j | 0 <= j < i :: tags[j].rev != commit.rev
    ensures GetCommitTag(commit, tags) == Some(tags[i])
    decreases i
  {
    if i > 0 {
      CommitTagIsFirstMatch(commit, tags[1..], i - 1);
    }
  }

  // ------------------------------------------------------------ tag windows

  /** The tag just older than index `j`, when there is one. */
  function OneOlder(tags: seq<Tag>, j: nat): seq<Tag>
  {
    if j + 1 < |tags| then [tags[j + 1]] else []
  }

  /**
   * The tags from the newest requested one down to the oldest requested one
   * (the newest alone when no oldest, or an empty oldest, is given), plus the
   * tag just older than that. A single pass: keeping starts at the newest
   * name and the pass stops at the oldest name.
   */
  function SmartTagRange(tags: seq<Tag>, newest: string, oldest: Option<string>): (r: seq<Tag>)
    ensures forall t | t in r :: t in tags
  {
    var last := if oldest.Some? && oldest.value != "" then oldest.value else newest;
    Collect(tags, newest, last, 0, false)
  }

  /** The pass from index `i` on; `keep` says whether the newest name has been seen. */
  function Collect(tags: seq<Tag>, newest: string, oldest: string, i: nat, keep: bool): (r: seq<Tag>)
    requires i <= |tags|
    ensures forall t | t in r :: t in tags
    decreases |tags| - i
  {
    if i == |tags| then []
    else
      var keep' := keep || tags[i].name == newest;
      var taken := if keep' then [tags[i]] else [];
      if tags[i].name == oldest then taken + OneOlder(tags, i)
      else taken + Collect(tags, newest, oldest, i + 1, keep')
  }

  /** Once keeping, the pass takes every tag up to the first oldest name and one more. */
  lemma {:induction false} CollectKept(tags: seq<Tag>, newest: string, oldest: string, i: nat, j: nat)
    requires i <= j < |tags| && tags[j].name == oldest
    requires forall k | i <= k < j :: tags[k].name != oldest
    ensures Collect(tags, newest, oldest, i, true) == tags[i..j + 1] + OneOlder(tags, j)
    decreases j - i
  {
    if i < j {
      CollectKept(tags, newest, oldest, i + 1, j);
      assert tags[i..j + 1] == [tags[i]] + tags[i + 1..j + 1];
    } else {
      assert tags[i..j + 1] == [tags[i]];
    }
  }

  /** Once keeping and with no oldest name ahead, the pass takes every remaining tag. */
  lemma {:induction false} CollectKeptToEnd(tags: seq<Tag>, newest: string, oldest: string, i: nat)
    requires i <= |tags|
    requires forall k | i <= k < |tags| :: tags[k].name != oldest
    ensures Collect(tags, newest, oldest, i, true) == tags[i..]
    decreases |tags| - i
  {
    if i < |tags| {
      CollectKeptToEnd(tags, newest, oldest, i + 1);
      assert tags[i..] == [tags[i]] + tags[i + 1..];
    }
  }

  /** Before the newest name, the pass skips tags that carry neither name. */
  lemma {:induction false} CollectSkips(tags: seq<Tag>, newest: string, oldest: string, i: nat, j: nat)
    requires i <= j <= |tags|
    requires forall k | i <= k < j :: tags[k].name != newest && tags[k].name != oldest
    ensures Collect(tags, newest, oldest, i, false) == Collect(tags, newest, oldest, j, false)
    decreases j - i
  {
    if i < j {
      CollectSkips(tags, newest, oldest, i + 1, j);
    }
  }

  /**
   * The window is contiguous: it is the run of tags that starts at the first
   * tag named `newest`, ends at the first tag named `oldest`, and takes one
   * more tag when there is one.
   */
  lemma SmartTagRangeWindow(tags: seq<Tag>, newest: string, oldest: string, i: nat, j: nat)
    requires oldest != ""
    requires i <= j < |tags| && tags[i].name == newest && tags[j].name == oldest
    requires forall k | 0 <= k < i :: tags[k].name != newest
    requires forall k | 0 <= k < j :: tags[k].name != oldest
    ensures SmartTagRange(tags, newest, Some(oldest)) == tags[i..j + 1] + OneOlder(tags, j)
    ensures |SmartTagRange(tags, newest, Some(oldest))| == (j - i + 1) + (if j + 1 < |tags| then 1 else 0)
  {
    CollectSkips(tags, newest, oldest, 0, i);
    if i < j {
      CollectKept(tags, newest, oldest, i + 1, j);
      assert tags[i..j + 1] == [tags[i]] + tags[i + 1..j + 1];
    } else {
      assert tags[i..j + 1] == [tags[i]];
    }
  }

  /** A single tag yields itself and, when there is one, the tag just older than it. */
  lemma SmartTagRangeSingle(tags: seq<Tag>, newest: string, i: nat)
    requires i < |tags| && tags[i].name == newest
    requires forall k | 0 <= k < i :: tags[k].name != newest
    ensures SmartTagRange(tags, newest, None) == [tags[i]] + OneOlder(tags, i)
    ensures |SmartTagRange(tags, newest, None)| == if i + 1 < |tags| then 2 else 1
  {
    CollectSkips(tags, newest, newest, 0, i);
  }

  /** When no tag carries the oldest name, the window runs from the newest tag to the oldest tag. */
  lemma SmartTagRangeOpenEnd(tags: seq<Tag>, newest: string, oldest: string, i: nat)
    requires oldest != ""
    requires i < |tags| && tags[i].name == newest
    requires forall k | 0 <= k < i :: tags[k].name != newest
    requires forall k | 0 <= k < |tags| :: tags[k].name != oldest
    ensures SmartTagRange(tags, newest, Some(oldest)) == tags[i..]
  {
    CollectSkips(tags, newest, oldest, 0, i);
    CollectKeptToEnd(tags, newest, oldest, i + 1);
    assert tags[i..] == [tags[i]] + tags[i + 1..];
  }

  /**
   * When the oldest name comes first (the newest tag is missing or older), the
   * pass stops there having kept nothing: only the tag after it remains.
   */
  lemma SmartTagRangeOldestFirst(tags: seq<Tag>, newest: string, oldest: string, j: nat)
    requires oldest != ""
    requires j < |tags| && tags[j].name == oldest
    requires forall k | 0 <= k <= j :: tags[k].name != newest
    requires forall k | 0 <= k < j :: tags[k].name != oldest
    ensures SmartTagRange(tags, newest, Some(oldest)) == OneOlder(tags, j)
  {
    CollectSkips(tags, newest, oldest, 0, j);
  }

  /** When no tag carries either name, the window is empty. */
  lemma SmartTagRangeNeither(tags: seq<Tag>, newest: string, oldest: Option<string>)
    requires forall k | 0 <= k < |tags| :: tags[k].name != newest
    requires oldest.Some? && oldest.value != "" ==> forall k | 0 <= k < |tags| :: tags[k].name != oldest.value
    ensures SmartTagRange(tags, newest, oldest) == []
  {
    var last := if oldest.Some? && oldest.value != "" then oldest.value else newest;
    CollectSkips(tags, newest, last, 0, |tags|);
  }
}
