/**
 * Which commits each release holds. The commits, newest first, are cut into
 * runs: a commit carrying an accepted tag that no release has yet starts a
 * run under that tag, and every other commit joins the run before it. Each
 * release of the tree is one run: named and dated from the run's tag (or
 * "Unreleased"), holding the changes of the run's commits. Merging
 * pre-releases joins each run under a pre-release tag to the run before it,
 * the newer release, and leaves every other run as it was.
 */
module ReleaseSegments {
  import opened Wrappers
  import opened Git
  import opened Tags
  import opened Changelog
  import opened Buckets
  import opened ReleaseTree
  import opened ReleaseTreeLaws

  /** A run of consecutive commits and the tag whose release they fill (none for "Unreleased"). */
  datatype Segment = Segment(tag: Option<Tag>, commits: seq<Commit>)

  /** The tags of the runs that have one, in order. */
  function SegmentTags(ss: seq<Segment>): seq<Tag>
  {
    if |ss| == 0 then [] else SegmentTags(ss[..|ss| - 1]) + OpenedBy(ss[|ss| - 1].tag)
  }

  /** The runs with one more commit at the end of the last run. */
  function Extend(ss: seq<Segment>, c: Commit): (r: seq<Segment>)
    requires |ss| >= 1
    ensures |r| == |ss|
  {
    ss[..|ss| - 1] + [ss[|ss| - 1].(commits := ss[|ss| - 1].commits + [c])]
  }

  /**
   * The commits cut into runs, the first run under `head`: a commit that
   * carries an accepted tag no run has yet starts a new run under that tag;
   * every other commit joins the last run.
   */
  function SegmentsFrom(rules: TagRules, tags: seq<Tag>, head: Option<Tag>, cs: seq<Commit>): (r: seq<Segment>)
    ensures |r| >= 1
  {
    if |cs| == 0 then [Segment(head, [])]
    else
      var ss := SegmentsFrom(rules, tags, head, cs[..|cs| - 1]);
      var c := cs[|cs| - 1];
      NextSegments(ss, OpeningTag(rules, tags, SegmentTags(ss), c), c)
  }

  /** The runs after commit `c`: a new run when `c` opens a release for tag `o`, else `c` joins the last run. */
  function NextSegments(ss: seq<Segment>, o: Option<Tag>, c: Commit): (r: seq<Segment>)
    requires |ss| >= 1
    ensures |r| >= 1
  {
    if o.Some? then ss + [Segment(o, [c])] else Extend(ss, c)
  }

  lemma {:induction false} SegmentsFromSnoc(rules: TagRules, tags: seq<Tag>, head: Option<Tag>, cs: seq<Commit>)
    requires cs != []
    ensures var ss := SegmentsFrom(rules, tags, head, cs[..|cs| - 1]);
            SegmentsFrom(rules, tags, head, cs) == NextSegments(ss, OpeningTag(rules, tags, SegmentTags(ss), cs[|cs| - 1]), cs[|cs| - 1])
  {
  }

  /** The runs of a history: the first one under the newest commit's tag when that tag opens a release. */
  function Segments(rules: TagRules, tags: seq<Tag>, commits: seq<Commit>): seq<Segment>
  {
    SegmentsFrom(rules, tags, FirstTag(rules, tags, commits), commits)
  }

  /** The release a run makes: named and dated from its tag, holding the changes of its commits. */
  function SegmentRelease(cfg: Config, sg: Segment): Release
  {
    var changes := AddChanges([], AllChanges(cfg, sg.commits));
    match sg.tag
    case None => Release("Unreleased", "", changes, map[])
    case Some(t) => Release(t.name, t.date, changes, map[])
  }

  function SegmentReleases(cfg: Config, ss: seq<Segment>): (r: seq<Release>)
    ensures |r| == |ss| && forall j | 0 <= j < |ss| :: r[j] == SegmentRelease(cfg, ss[j])
  {
    seq(|ss|, j requires 0 <= j < |ss| => SegmentRelease(cfg, ss[j]))
  }

  /** The commits of the runs, run after run. */
  function Joined(ss: seq<Segment>): seq<Commit>
  {
    if |ss| == 0 then [] else Joined(ss[..|ss| - 1]) + ss[|ss| - 1].commits
  }

  // ------------------------------------------------------ small facts

  lemma {:induction false} LastSplit<T>(s: seq<T>)
    requires s != []
    ensures s == s[..|s| - 1] + [s[|s| - 1]]
  {
  }

  lemma {:induction false} SegmentTagsSnoc(ss: seq<Segment>, sg: Segment)
    ensures SegmentTags(ss + [sg]) == SegmentTags(ss) + OpenedBy(sg.tag)
  {
    assert (ss + [sg])[..|ss|] == ss;
  }

  lemma {:induction false} SegmentTagsExtend(ss: seq<Segment>, c: Commit)
    requires |ss| >= 1
    ensures SegmentTags(Extend(ss, c)) == SegmentTags(ss)
  {
    var n := |ss|;
    var init, last := ss[..n - 1], ss[n - 1];
    var last' := last.(commits := last.commits + [c]);
    assert Extend(ss, c) == init + [last'];
    SegmentTagsSnoc(init, last');
    assert last'.tag == last.tag;
    assert SegmentTags(ss) == SegmentTags(init) + OpenedBy(last.tag);
  }

  lemma {:induction false} SegmentTagsPrefix(ss: seq<Segment>, j: nat)
    requires j < |ss|
    ensures SegmentTags(ss[..j + 1]) == SegmentTags(ss[..j]) + OpenedBy(ss[j].tag)
  {
    assert ss[..j + 1] == ss[..j] + [ss[j]];
    SegmentTagsSnoc(ss[..j], ss[j]);
  }

  lemma {:induction false} JoinedSnoc(ss: seq<Segment>, sg: Segment)
    ensures Joined(ss + [sg]) == Joined(ss) + sg.commits
  {
    assert (ss + [sg])[..|ss|] == ss;
  }

  lemma {:induction false} JoinedExtend(ss: seq<Segment>, c: Commit)
    requires |ss| >= 1
    ensures Joined(Extend(ss, c)) == Joined(ss) + [c]
  {
    var n := |ss|;
    var init, last := ss[..n - 1], ss[n - 1];
    var last' := last.(commits := last.commits + [c]);
    assert Extend(ss, c) == init + [last'];
    JoinedSnoc(init, last');
    assert Joined(ss) == Joined(init) + last.commits;
    SeqAssoc(Joined(init), last.commits, [c]);
  }

  lemma {:induction false} JoinedNext(ss: seq<Segment>, o: Option<Tag>, c: Commit)
    requires |ss| >= 1
    ensures Joined(NextSegments(ss, o, c)) == Joined(ss) + [c]
  {
    if o.Some? {
      JoinedSnoc(ss, Segment(o, [c]));
    } else {
      JoinedExtend(ss, c);
    }
  }

  lemma {:induction false} AllChangesSnoc(cfg: Config, cs: seq<Commit>, c: Commit)
    ensures AllChanges(cfg, cs + [c]) == AllChanges(cfg, cs) + Contribution(cfg, c)
  {
    assert (cs + [c])[..|cs|] == cs;
  }

  /** A history cut anywhere contributes the changes of its first part, then those of the rest. */
  lemma {:induction false} AllChangesAppend(cfg: Config, xs: seq<Commit>, ys: seq<Commit>)
    ensures AllChanges(cfg, xs + ys) == AllChanges(cfg, xs) + AllChanges(cfg, ys)
    decreases |ys|
  {
    if ys == [] {
      assert xs + ys == xs;
    } else {
      var init, c := ys[..|ys| - 1], ys[|ys| - 1];
      AllChangesAppend(cfg, xs, init);
      assert (xs + ys)[..|xs + ys| - 1] == xs + init;
      assert (xs + ys)[|xs + ys| - 1] == c;
      SeqAssoc(AllChanges(cfg, xs), AllChanges(cfg, init), Contribution(cfg, c));
    }
  }

  // ------------------------------------------------------ the walk fills the runs

  /** Adding a commit to the last run adds its changes to the last release. */
  lemma {:induction false} ReleasesOfExtend(cfg: Config, ss: seq<Segment>, c: Commit)
    requires |ss| >= 1
    ensures var rs := SegmentReleases(cfg, ss);
            SegmentReleases(cfg, Extend(ss, c))
            == rs[..|ss| - 1] + [rs[|ss| - 1].(changes := AddChanges(rs[|ss| - 1].changes, Contribution(cfg, c)))]
  {
    var n := |ss|;
    var last := ss[n - 1];
    AllChangesSnoc(cfg, last.commits, c);
    AddChangesAppend([], AllChanges(cfg, last.commits), Contribution(cfg, c));
    var rs := SegmentReleases(cfg, ss);
    var a := SegmentReleases(cfg, Extend(ss, c));
    var b := rs[..n - 1] + [rs[n - 1].(changes := AddChanges(rs[n - 1].changes, Contribution(cfg, c)))];
    forall j | 0 <= j < n ensures a[j] == b[j] {
      if j < n - 1 {
        assert Extend(ss, c)[j] == ss[j];
      }
    }
  }

  /** A commit starting a run under tag `t` adds a release for `t` with the commit's changes. */
  lemma {:induction false} ReleasesOfOpen(cfg: Config, ss: seq<Segment>, t: Tag, c: Commit)
    ensures SegmentReleases(cfg, ss + [Segment(Some(t), [c])])
            == SegmentReleases(cfg, ss) + [Open(t).(changes := AddChanges([], Contribution(cfg, c)))]
  {
    assert AllChanges(cfg, [c]) == Contribution(cfg, c) by {
      assert [c][..0] == [];
    }
    var a := SegmentReleases(cfg, ss + [Segment(Some(t), [c])]);
    var b := SegmentReleases(cfg, ss) + [Open(t).(changes := AddChanges([], Contribution(cfg, c)))];
    forall j | 0 <= j < |a| ensures a[j] == b[j] {
      if j < |ss| {
        assert (ss + [Segment(Some(t), [c])])[j] == ss[j];
      } else {
        assert (ss + [Segment(Some(t), [c])])[j] == Segment(Some(t), [c]);
      }
    }
  }

  /** One step of the walk adds one commit to the runs. */
  lemma {:induction false} StepSegments(cfg: Config, tags: seq<Tag>, p: Walk, ss: seq<Segment>, c: Commit)
    requires cfg.releaseHook.None? && |ss| >= 1
    requires Releases(p) == SegmentReleases(cfg, ss) && p.used == SegmentTags(ss)
    ensures var next := NextSegments(ss, OpeningTag(cfg.rules, tags, SegmentTags(ss), c), c);
            Releases(Step(cfg, tags, p, c)) == SegmentReleases(cfg, next)
            && Step(cfg, tags, p, c).used == SegmentTags(next)
  {
    var q := Step(cfg, tags, p, c);
    ReleasesOfStep(cfg, tags, p, c);
    var rs := Releases(p);
    assert rs[..|rs| - 1] == p.done && rs[|rs| - 1] == p.current;
    match OpeningTag(cfg.rules, tags, p.used, c)
    case None =>
      ReleasesOfExtend(cfg, ss, c);
      SegmentTagsExtend(ss, c);
    case Some(t) =>
      ReleasesOfOpen(cfg, ss, t, c);
      SegmentTagsSnoc(ss, Segment(Some(t), [c]));
  }

  /** Without a release hook, the walk's releases are the releases of the runs, and its used tags are theirs. */
  lemma {:induction false} FoldSegments(cfg: Config, tags: seq<Tag>, s: Walk, head: Option<Tag>, cs: seq<Commit>)
    requires cfg.releaseHook.None?
    requires s.done == [] && s.used == OpenedBy(head) && s.current == SegmentRelease(cfg, Segment(head, []))
    ensures Releases(Fold(cfg, tags, s, cs)) == SegmentReleases(cfg, SegmentsFrom(cfg.rules, tags, head, cs))
    ensures Fold(cfg, tags, s, cs).used == SegmentTags(SegmentsFrom(cfg.rules, tags, head, cs))
    decreases |cs|
  {
    if cs == [] {
      assert SegmentTags([Segment(head, [])]) == OpenedBy(head) by {
        SegmentTagsSnoc([], Segment(head, []));
      }
    } else {
      var init, c := cs[..|cs| - 1], cs[|cs| - 1];
      FoldSegments(cfg, tags, s, head, init);
      StepSegments(cfg, tags, Fold(cfg, tags, s, init), SegmentsFrom(cfg.rules, tags, head, init), c);
    }
  }

  /**
   * Without a release hook, the tree is the releases of the runs: release j
   * is named and dated from run j's tag ("Unreleased" when it has none) and
   * holds exactly the changes of run j's commits, filed in commit order. The
   * runs' tags are the release tags.
   */
  lemma {:induction false} TreeReleases(cfg: Config, tags: seq<Tag>, commits: seq<Commit>)
    requires cfg.releaseHook.None?
    ensures Tree(cfg, tags, commits) == SegmentReleases(cfg, Segments(cfg.rules, tags, commits))
    ensures SegmentTags(Segments(cfg.rules, tags, commits)) == ReleaseTags(cfg.rules, tags, commits)
  {
    var head := FirstTag(cfg.rules, tags, commits);
    var s := Start(cfg, tags, commits);
    assert s.current == SegmentRelease(cfg, Segment(head, []));
    FoldSegments(cfg, tags, s, head, commits);
    FoldUsed(cfg, tags, s, commits);
    StartLabels(cfg, tags, commits);
  }

  // ------------------------------------------------------ the release hook

  /** Run `sg`'s release as the tree hands it out: through the release hook, which receives the run's own tag. */
  function SegmentClosed(cfg: Config, sg: Segment): Release
  {
    match cfg.releaseHook
    case None => SegmentRelease(cfg, sg)
    case Some(h) => h(SegmentRelease(cfg, sg), sg.tag)
  }

  function ClosedReleases(cfg: Config, ss: seq<Segment>): (r: seq<Release>)
    ensures |r| == |ss| && forall j | 0 <= j < |ss| :: r[j] == SegmentClosed(cfg, ss[j])
  {
    seq(|ss|, j requires 0 <= j < |ss| => SegmentClosed(cfg, ss[j]))
  }

  /** The walk has gone through runs `ss`: the earlier runs handed out, the last one still open under its tag. */
  predicate WalksRuns(cfg: Config, s: Walk, ss: seq<Segment>)
  {
    && |ss| >= 1
    && s.done == ClosedReleases(cfg, ss[..|ss| - 1])
    && s.current == SegmentRelease(cfg, ss[|ss| - 1])
    && s.currentTag == ss[|ss| - 1].tag
    && s.used == SegmentTags(ss)
  }

  lemma {:induction false} ClosedSnoc(cfg: Config, ss: seq<Segment>, sg: Segment)
    ensures ClosedReleases(cfg, ss + [sg]) == ClosedReleases(cfg, ss) + [SegmentClosed(cfg, sg)]
  {
    var a := ClosedReleases(cfg, ss + [sg]);
    var b := ClosedReleases(cfg, ss) + [SegmentClosed(cfg, sg)];
    forall j | 0 <= j < |a| ensures a[j] == b[j] {
      if j < |ss| {
        assert (ss + [sg])[j] == ss[j];
      }
    }
  }

  /** Handing out the open release hands out the last run's release, through the hook with its tag. */
  lemma {:induction false} CloseWalksRuns(cfg: Config, s: Walk, ss: seq<Segment>)
    requires WalksRuns(cfg, s, ss)
    ensures s.done + [Close(cfg, s)] == ClosedReleases(cfg, ss)
  {
    var n := |ss|;
    ClosedSnoc(cfg, ss[..n - 1], ss[n - 1]);
    LastSplit(ss);
  }

  lemma {:induction false} StepWalksRuns(cfg: Config, tags: seq<Tag>, p: Walk, ss: seq<Segment>, c: Commit)
    requires WalksRuns(cfg, p, ss)
    ensures WalksRuns(cfg, Step(cfg, tags, p, c), NextSegments(ss, OpeningTag(cfg.rules, tags, SegmentTags(ss), c), c))
  {
    var n := |ss|;
    var last := ss[n - 1];
    match OpeningTag(cfg.rules, tags, p.used, c)
    case None =>
      var e := Extend(ss, c);
      assert e[..n - 1] == ss[..n - 1];
      assert e[n - 1] == last.(commits := last.commits + [c]);
      AllChangesSnoc(cfg, last.commits, c);
      AddChangesAppend([], AllChanges(cfg, last.commits), Contribution(cfg, c));
      SegmentTagsExtend(ss, c);
    case Some(t) =>
      var sg := Segment(Some(t), [c]);
      assert (ss + [sg])[..n] == ss;
      CloseWalksRuns(cfg, p, ss);
      assert AllChanges(cfg, [c]) == Contribution(cfg, c) by {
        assert [c][..0] == [];
      }
      SegmentTagsSnoc(ss, sg);
  }

  lemma {:induction false} FoldWalksRuns(cfg: Config, tags: seq<Tag>, s: Walk, head: Option<Tag>, cs: seq<Commit>)
    requires WalksRuns(cfg, s, [Segment(head, [])])
    ensures WalksRuns(cfg, Fold(cfg, tags, s, cs), SegmentsFrom(cfg.rules, tags, head, cs))
    decreases |cs|
  {
    if cs != [] {
      var init, c := cs[..|cs| - 1], cs[|cs| - 1];
      FoldWalksRuns(cfg, tags, s, head, init);
      StepWalksRuns(cfg, tags, Fold(cfg, tags, s, init), SegmentsFrom(cfg.rules, tags, head, init), c);
    }
  }

  /**
   * With or without a release hook, release j of the tree is run j's release
   * handed out through the hook, which receives run j's own tag.
   */
  lemma {:induction false} TreeClosedReleases(cfg: Config, tags: seq<Tag>, commits: seq<Commit>)
    ensures Tree(cfg, tags, commits) == ClosedReleases(cfg, Segments(cfg.rules, tags, commits))
  {
    var head := FirstTag(cfg.rules, tags, commits);
    var s := Start(cfg, tags, commits);
    assert WalksRuns(cfg, s, [Segment(head, [])]) by {
      SegmentTagsSingle(Segment(head, []));
      assert [Segment(head, [])][..0] == [];
    }
    FoldWalksRuns(cfg, tags, s, head, commits);
    CloseWalksRuns(cfg, Fold(cfg, tags, s, commits), Segments(cfg.rules, tags, commits));
  }

  /**
   * The release hook receives each release as the tree would have it without
   * the hook, together with the tag that release is named after (none for
   * "Unreleased").
   */
  lemma {:induction false} ReleaseHookGetsOwnTag(cfg: Config, tags: seq<Tag>, commits: seq<Commit>, j: nat)
    requires cfg.releaseHook.Some? && j < |Segments(cfg.rules, tags, commits)|
    ensures var plain := cfg.(releaseHook := None);
            var t := Segments(cfg.rules, tags, commits)[j].tag;
            var tree, bare := Tree(cfg, tags, commits), Tree(plain, tags, commits);
            && j < |tree| && j < |bare|
            && tree[j] == cfg.releaseHook.value(bare[j], t)
            && bare[j].version == (if t.None? then "Unreleased" else t.value.name)
  {
    var plain := cfg.(releaseHook := None);
    var sg := Segments(cfg.rules, tags, commits)[j];
    TreeClosedReleases(cfg, tags, commits);
    TreeReleaseAt(plain, tags, commits, j);
    TreeReleases(plain, tags, commits);
    AllChangesSameFiling(cfg, plain, sg.commits);
    HookRelease(cfg, plain, sg, Tree(cfg, tags, commits)[j], Tree(plain, tags, commits)[j]);
  }

  lemma {:induction false} HookRelease(cfg: Config, plain: Config, sg: Segment, r: Release, bare: Release)
    requires cfg.releaseHook.Some? && plain == cfg.(releaseHook := None)
    requires r == SegmentClosed(cfg, sg) && bare == SegmentRelease(plain, sg)
    requires AllChanges(cfg, sg.commits) == AllChanges(plain, sg.commits)
    ensures r == cfg.releaseHook.value(bare, sg.tag)
  {
  }

  // ------------------------------------------------------ how the runs cut the history

  lemma {:induction false} JoinedSegments(rules: TagRules, tags: seq<Tag>, head: Option<Tag>, cs: seq<Commit>)
    ensures Joined(SegmentsFrom(rules, tags, head, cs)) == cs
    decreases |cs|
  {
    if cs != [] {
      var init, c := cs[..|cs| - 1], cs[|cs| - 1];
      JoinedSegments(rules, tags, head, init);
      var ss := SegmentsFrom(rules, tags, head, init);
      SegmentsFromSnoc(rules, tags, head, cs);
      JoinedNext(ss, OpeningTag(rules, tags, SegmentTags(ss), c), c);
      LastSplit(cs);
    }
  }

  /** Run j starts with a commit whose tag opens its release, given the runs before it. */
  predicate RunOpens(rules: TagRules, tags: seq<Tag>, ss: seq<Segment>, j: nat)
    requires j < |ss|
  {
    ss[j].commits != [] && ss[j].tag.Some? && OpeningTag(rules, tags, SegmentTags(ss[..j]), ss[j].commits[0]) == ss[j].tag
  }

  /** Every run after the first starts with a commit whose tag opens its release. */
  predicate HeadsOpen(rules: TagRules, tags: seq<Tag>, ss: seq<Segment>)
  {
    forall j | 0 < j < |ss| :: RunOpens(rules, tags, ss, j)
  }

  /** No commit of run j but the one that opens it carries a tag that would open a release, given the runs up to j. */
  predicate RunStays(rules: TagRules, tags: seq<Tag>, ss: seq<Segment>, j: nat)
    requires j < |ss|
  {
    forall i | (j == 0 || 0 < i) && 0 <= i < |ss[j].commits| ::
      OpeningTag(rules, tags, SegmentTags(ss[..j + 1]), ss[j].commits[i]).None?
  }

  predicate OthersStay(rules: TagRules, tags: seq<Tag>, ss: seq<Segment>)
  {
    forall j | 0 <= j < |ss| :: RunStays(rules, tags, ss, j)
  }

  lemma {:induction false} HeadsOpenSnoc(rules: TagRules, tags: seq<Tag>, ss: seq<Segment>, t: Tag, c: Commit)
    requires HeadsOpen(rules, tags, ss) && OpeningTag(rules, tags, SegmentTags(ss), c) == Some(t)
    ensures HeadsOpen(rules, tags, ss + [Segment(Some(t), [c])])
  {
    var ss' := ss + [Segment(Some(t), [c])];
    forall j | 0 < j < |ss'| ensures RunOpens(rules, tags, ss', j) {
      assert ss'[..j] == ss[..j];
      if j < |ss| {
        assert ss'[j] == ss[j] && RunOpens(rules, tags, ss, j);
      } else {
        assert ss[..j] == ss && ss'[j] == Segment(Some(t), [c]);
      }
    }
  }

  lemma {:induction false} HeadsOpenExtend(rules: TagRules, tags: seq<Tag>, ss: seq<Segment>, c: Commit)
    requires |ss| >= 1 && HeadsOpen(rules, tags, ss)
    ensures HeadsOpen(rules, tags, Extend(ss, c))
  {
    var n := |ss|;
    var ss' := Extend(ss, c);
    forall j | 0 < j < n ensures RunOpens(rules, tags, ss', j) {
      assert ss'[..j] == ss[..j] && RunOpens(rules, tags, ss, j);
      if j < n - 1 {
        assert ss'[j] == ss[j];
      } else {
        assert ss'[j].commits == ss[j].commits + [c] && ss'[j].tag == ss[j].tag;
      }
    }
  }

  /** Whether run j stays closed depends on the runs up to j only. */
  lemma {:induction false} RunStaysPrefix(rules: TagRules, tags: seq<Tag>, ss: seq<Segment>, ss': seq<Segment>, j: nat)
    requires j < |ss| && j < |ss'| && ss[..j + 1] == ss'[..j + 1]
    ensures RunStays(rules, tags, ss, j) == RunStays(rules, tags, ss', j)
  {
    assert ss[j] == ss[..j + 1][j] == ss'[j];
  }

  lemma {:induction false} OthersStaySnoc(rules: TagRules, tags: seq<Tag>, ss: seq<Segment>, t: Tag, c: Commit)
    requires |ss| >= 1 && OthersStay(rules, tags, ss)
    ensures OthersStay(rules, tags, ss + [Segment(Some(t), [c])])
  {
    var ss' := ss + [Segment(Some(t), [c])];
    forall j | 0 <= j < |ss'| ensures RunStays(rules, tags, ss', j) {
      if j < |ss| {
        assert ss'[..j + 1] == ss[..j + 1];
        RunStaysPrefix(rules, tags, ss, ss', j);
      } else {
        assert ss'[j].commits == [c];
      }
    }
  }

  lemma {:induction false} LastRunStays(rules: TagRules, tags: seq<Tag>, ss: seq<Segment>, c: Commit)
    requires |ss| >= 1 && RunStays(rules, tags, ss, |ss| - 1)
    requires OpeningTag(rules, tags, SegmentTags(ss), c).None?
    ensures RunStays(rules, tags, Extend(ss, c), |ss| - 1)
  {
    var n := |ss|;
    var ss' := Extend(ss, c);
    SegmentTagsExtend(ss, c);
    assert ss'[..n] == ss' && ss[..n] == ss;
    var old_, new_ := ss[n - 1].commits, ss'[n - 1].commits;
    assert new_ == old_ + [c];
    forall i | (n - 1 == 0 || 0 < i) && 0 <= i < |new_|
      ensures OpeningTag(rules, tags, SegmentTags(ss'), new_[i]).None?
    {
      if i < |old_| {
        assert new_[i] == old_[i];
      }
    }
  }

  lemma {:induction false} OthersStayExtend(rules: TagRules, tags: seq<Tag>, ss: seq<Segment>, c: Commit)
    requires |ss| >= 1 && OthersStay(rules, tags, ss)
    requires OpeningTag(rules, tags, SegmentTags(ss), c).None?
    ensures OthersStay(rules, tags, Extend(ss, c))
  {
    var n := |ss|;
    var ss' := Extend(ss, c);
    forall j | 0 <= j < n ensures RunStays(rules, tags, ss', j) {
      if j < n - 1 {
        assert ss'[..j + 1] == ss[..j + 1];
        RunStaysPrefix(rules, tags, ss, ss', j);
      } else {
        LastRunStays(rules, tags, ss, c);
      }
    }
  }

  lemma {:induction false} HeadsCut(rules: TagRules, tags: seq<Tag>, head: Option<Tag>, cs: seq<Commit>)
    ensures var ss := SegmentsFrom(rules, tags, head, cs);
            ss[0].tag == head && HeadsOpen(rules, tags, ss)
    decreases |cs|
  {
    if cs != [] {
      var init, c := cs[..|cs| - 1], cs[|cs| - 1];
      HeadsCut(rules, tags, head, init);
      var ss := SegmentsFrom(rules, tags, head, init);
      match OpeningTag(rules, tags, SegmentTags(ss), c)
      case Some(t) =>
        HeadsOpenSnoc(rules, tags, ss, t, c);
      case None =>
        HeadsOpenExtend(rules, tags, ss, c);
    }
  }

  lemma {:induction false} StaysCut(rules: TagRules, tags: seq<Tag>, head: Option<Tag>, cs: seq<Commit>)
    ensures OthersStay(rules, tags, SegmentsFrom(rules, tags, head, cs))
    decreases |cs|
  {
    if cs != [] {
      var init, c := cs[..|cs| - 1], cs[|cs| - 1];
      StaysCut(rules, tags, head, init);
      var ss := SegmentsFrom(rules, tags, head, init);
      match OpeningTag(rules, tags, SegmentTags(ss), c)
      case Some(t) =>
        OthersStaySnoc(rules, tags, ss, t, c);
      case None =>
        OthersStayExtend(rules, tags, ss, c);
    }
  }

  /**
   * The runs cut the history into consecutive pieces, in order. The first
   * run is under the newest commit's tag when that tag opens a release (and
   * is "Unreleased" otherwise). Every later run starts with the commit whose
   * tag opens its release. No other commit of a run carries a tag that would
   * open a release not opened yet.
   */
  lemma {:induction false} SegmentsPartition(rules: TagRules, tags: seq<Tag>, commits: seq<Commit>)
    ensures var ss := Segments(rules, tags, commits);
            && Joined(ss) == commits
            && ss[0].tag == FirstTag(rules, tags, commits)
            && HeadsOpen(rules, tags, ss)
            && OthersStay(rules, tags, ss)
  {
    JoinedSegments(rules, tags, FirstTag(rules, tags, commits), commits);
    HeadsCut(rules, tags, FirstTag(rules, tags, commits), commits);
    StaysCut(rules, tags, FirstTag(rules, tags, commits), commits);
  }

  /** Where run j sits in the joined commits: right after the commits of the runs before it. */
  lemma {:induction false} JoinedSlice(ss: seq<Segment>, j: nat)
    requires j < |ss|
    ensures var a := |Joined(ss[..j])|;
            a + |ss[j].commits| <= |Joined(ss)| && Joined(ss)[a..a + |ss[j].commits|] == ss[j].commits
    decreases |ss|
  {
    var n := |ss|;
    var init := ss[..n - 1];
    assert Joined(ss) == Joined(init) + ss[n - 1].commits;
    if j < n - 1 {
      JoinedSlice(init, j);
      assert init[..j] == ss[..j] && init[j] == ss[j];
    } else {
      assert init == ss[..j];
    }
  }

  /** Run j is the slice commits[a..b] of the history, where a counts the commits of the runs before it. */
  lemma {:induction false} RunSlice(rules: TagRules, tags: seq<Tag>, commits: seq<Commit>, j: nat)
    requires j < |Segments(rules, tags, commits)|
    ensures var ss := Segments(rules, tags, commits);
            var a := |Joined(ss[..j])|;
            var b := a + |ss[j].commits|;
            b <= |commits| && ss[j].commits == commits[a..b] && (j == 0 ==> a == 0)
  {
    var ss := Segments(rules, tags, commits);
    JoinedSegments(rules, tags, FirstTag(rules, tags, commits), commits);
    JoinedSlice(ss, j);
    if j == 0 {
      assert ss[..0] == [];
    }
  }

  /**
   * Run j is the slice commits[a..b] of the history, where a counts the
   * commits of the runs before it. The first run starts at the newest commit;
   * every later run starts with the commit whose tag opens its release.
   */
  lemma {:induction false} RunPlace(rules: TagRules, tags: seq<Tag>, commits: seq<Commit>, j: nat)
    requires j < |Segments(rules, tags, commits)|
    ensures var ss := Segments(rules, tags, commits);
            var a := |Joined(ss[..j])|;
            var b := a + |ss[j].commits|;
            && b <= |commits| && ss[j].commits == commits[a..b]
            && (j == 0 ==> a == 0)
            && (j > 0 ==> a < b && ss[j].tag == OpeningTag(rules, tags, SegmentTags(ss[..j]), commits[a]))
  {
    var ss := Segments(rules, tags, commits);
    RunSlice(rules, tags, commits, j);
    if j > 0 {
      assert RunOpens(rules, tags, ss, j) by {
        HeadsCut(rules, tags, FirstTag(rules, tags, commits), commits);
      }
    }
  }

  /**
   * Release j of the tree holds the commits from the one that opens it up to
   * the next one that opens a release: release j has the changes of run j's
   * slice of the history, filed in order, and is named after run j's tag
   * ("Unreleased" when it has none).
   */
  lemma {:induction false} ReleaseCommits(cfg: Config, tags: seq<Tag>, commits: seq<Commit>, j: nat)
    requires cfg.releaseHook.None? && j < |Segments(cfg.rules, tags, commits)|
    ensures var ss := Segments(cfg.rules, tags, commits);
            var a := |Joined(ss[..j])|;
            var b := a + |ss[j].commits|;
            var tree := Tree(cfg, tags, commits);
            && b <= |commits| && j < |tree|
            && tree[j].changes == AddChanges([], AllChanges(cfg, commits[a..b]))
            && tree[j].version == (if ss[j].tag.None? then "Unreleased" else ss[j].tag.value.name)
  {
    TreeReleaseAt(cfg, tags, commits, j);
    RunSlice(cfg.rules, tags, commits, j);
    RunRelease(cfg, commits, Segments(cfg.rules, tags, commits), Tree(cfg, tags, commits), j);
  }

  /** Release j made from run j, with run j found as a slice of the history. */
  lemma {:induction false} RunRelease(cfg: Config, commits: seq<Commit>, ss: seq<Segment>, tree: seq<Release>, j: nat)
    requires j < |ss| && j < |tree|
    requires tree[j].changes == AddChanges([], AllChanges(cfg, ss[j].commits))
    requires tree[j].version == (if ss[j].tag.None? then "Unreleased" else ss[j].tag.value.name)
    requires var a := |Joined(ss[..j])|; a + |ss[j].commits| <= |commits| && ss[j].commits == commits[a..a + |ss[j].commits|]
    ensures var a := |Joined(ss[..j])|;
            var b := a + |ss[j].commits|;
            && b <= |commits| && j < |tree|
            && tree[j].changes == AddChanges([], AllChanges(cfg, commits[a..b]))
            && tree[j].version == (if ss[j].tag.None? then "Unreleased" else ss[j].tag.value.name)
  {
  }

  lemma {:induction false} TreeReleaseAt(cfg: Config, tags: seq<Tag>, commits: seq<Commit>, j: nat)
    requires cfg.releaseHook.None? && j < |Segments(cfg.rules, tags, commits)|
    ensures var sg := Segments(cfg.rules, tags, commits)[j];
            var tree := Tree(cfg, tags, commits);
            && j < |tree|
            && tree[j].changes == AddChanges([], AllChanges(cfg, sg.commits))
            && tree[j].version == (if sg.tag.None? then "Unreleased" else sg.tag.value.name)
  {
    TreeReleases(cfg, tags, commits);
    assert Tree(cfg, tags, commits)[j] == SegmentRelease(cfg, Segments(cfg.rules, tags, commits)[j]);
  }

  // ------------------------------------------------------ merging pre-releases

  /** A tag kept when pre-releases are merged: one that carries a final version. */
  function KeepFinalTag(rules: TagRules, t: Option<Tag>): Option<Tag>
  {
    if t.Some? && IsFinal(rules, t.value) then t else None
  }

  /**
   * The runs once pre-releases are merged: a run under a final tag stays as it
   * is; a run under a pre-release tag joins the run before it, the newer
   * release. The first run loses a pre-release tag and becomes "Unreleased".
   */
  function Merge(rules: TagRules, ss: seq<Segment>): (r: seq<Segment>)
    requires |ss| >= 1
    ensures |r| >= 1
  {
    if |ss| == 1 then [ss[0].(tag := KeepFinalTag(rules, ss[0].tag))]
    else Absorb(rules, Merge(rules, ss[..|ss| - 1]), ss[|ss| - 1])
  }

  /** The merged runs with one more run: kept when its tag is final, else joined to the last merged run. */
  function Absorb(rules: TagRules, m: seq<Segment>, sg: Segment): (r: seq<Segment>)
    requires |m| >= 1
    ensures |r| >= 1
  {
    if sg.tag.Some? && IsFinal(rules, sg.tag.value) then m + [sg]
    else m[..|m| - 1] + [m[|m| - 1].(commits := m[|m| - 1].commits + sg.commits)]
  }

  lemma {:induction false} MergeSnoc(rules: TagRules, ss: seq<Segment>, sg: Segment)
    requires |ss| >= 1
    ensures Merge(rules, ss + [sg]) == Absorb(rules, Merge(rules, ss), sg)
  {
    assert (ss + [sg])[..|ss|] == ss;
  }

  lemma {:induction false} AbsorbExtend(rules: TagRules, m: seq<Segment>, sg: Segment, c: Commit)
    requires |m| >= 1
    ensures Absorb(rules, m, sg.(commits := sg.commits + [c])) == Extend(Absorb(rules, m, sg), c)
  {
    if sg.tag.Some? && IsFinal(rules, sg.tag.value) {
      assert (m + [sg])[..|m|] == m;
    } else {
      var ml := m[|m| - 1];
      var a := m[..|m| - 1] + [ml.(commits := ml.commits + sg.commits)];
      assert a[..|a| - 1] == m[..|m| - 1];
      SeqAssoc(ml.commits, sg.commits, [c]);
    }
  }

  /** Adding a commit to the last run adds it to the last merged run. */
  lemma {:induction false} MergeExtend(rules: TagRules, ss: seq<Segment>, c: Commit)
    requires |ss| >= 1
    ensures Merge(rules, Extend(ss, c)) == Extend(Merge(rules, ss), c)
  {
    var n := |ss|;
    var last := ss[n - 1];
    var last' := last.(commits := last.commits + [c]);
    var e := Extend(ss, c);
    if n > 1 {
      assert e[..n - 1] == ss[..n - 1] && e[n - 1] == last';
      AbsorbExtend(rules, Merge(rules, ss[..n - 1]), last, c);
    }
  }

  lemma {:induction false} SegmentTagsSingle(sg: Segment)
    ensures SegmentTags([sg]) == OpenedBy(sg.tag)
  {
    assert [sg][..0] == [];
  }

  lemma {:induction false} KeepFinalOpenedBy(rules: TagRules, t: Option<Tag>)
    ensures KeepFinal(rules, OpenedBy(t)) == OpenedBy(KeepFinalTag(rules, t))
  {
    if t.Some? {
      FilterSnoc([], t.value, Finals(rules));
      assert [] + [t.value] == OpenedBy(t);
    }
  }

  lemma {:induction false} AbsorbTags(rules: TagRules, m: seq<Segment>, sg: Segment)
    requires |m| >= 1
    ensures SegmentTags(Absorb(rules, m, sg)) == SegmentTags(m) + OpenedBy(KeepFinalTag(rules, sg.tag))
  {
    if sg.tag.Some? && IsFinal(rules, sg.tag.value) {
      SegmentTagsSnoc(m, sg);
    } else {
      var ml := m[|m| - 1];
      SegmentTagsSnoc(m[..|m| - 1], ml.(commits := ml.commits + sg.commits));
      assert SegmentTags(m) == SegmentTags(m[..|m| - 1]) + OpenedBy(ml.tag);
    }
  }

  /** Merging keeps the final tags of the runs, in order. */
  lemma {:induction false} MergeTags(rules: TagRules, ss: seq<Segment>)
    requires |ss| >= 1
    ensures SegmentTags(Merge(rules, ss)) == KeepFinal(rules, SegmentTags(ss))
    decreases |ss|
  {
    var n := |ss|;
    if n == 1 {
      SegmentTagsSingle(ss[0]);
      SegmentTagsSingle(ss[0].(tag := KeepFinalTag(rules, ss[0].tag)));
      assert ss == [ss[0]];
      KeepFinalOpenedBy(rules, ss[0].tag);
    } else {
      var init, last := ss[..n - 1], ss[n - 1];
      var m := Merge(rules, init);
      calc {
        SegmentTags(Merge(rules, ss));
        SegmentTags(Absorb(rules, m, last));
        { AbsorbTags(rules, m, last); }
        SegmentTags(m) + OpenedBy(KeepFinalTag(rules, last.tag));
        { MergeTags(rules, init); KeepFinalOpenedBy(rules, last.tag); }
        KeepFinal(rules, SegmentTags(init)) + KeepFinal(rules, OpenedBy(last.tag));
        { FilterAppend(SegmentTags(init), OpenedBy(last.tag), Finals(rules)); }
        KeepFinal(rules, SegmentTags(init) + OpenedBy(last.tag));
        KeepFinal(rules, SegmentTags(ss));
      }
    }
  }

  lemma {:induction false} AbsorbJoined(rules: TagRules, m: seq<Segment>, sg: Segment)
    requires |m| >= 1
    ensures Joined(Absorb(rules, m, sg)) == Joined(m) + sg.commits
  {
    if sg.tag.Some? && IsFinal(rules, sg.tag.value) {
      JoinedSnoc(m, sg);
    } else {
      var ml := m[|m| - 1];
      JoinedSnoc(m[..|m| - 1], ml.(commits := ml.commits + sg.commits));
      assert Joined(m) == Joined(m[..|m| - 1]) + ml.commits;
      SeqAssoc(Joined(m[..|m| - 1]), ml.commits, sg.commits);
    }
  }

  /** Merging moves no commit and keeps their order. */
  lemma {:induction false} MergeJoined(rules: TagRules, ss: seq<Segment>)
    requires |ss| >= 1
    ensures Joined(Merge(rules, ss)) == Joined(ss)
    decreases |ss|
  {
    var n := |ss|;
    if n == 1 {
      JoinedSnoc([], ss[0]);
      JoinedSnoc([], ss[0].(tag := KeepFinalTag(rules, ss[0].tag)));
      assert [] + [ss[0]] == ss;
    } else {
      var init, last := ss[..n - 1], ss[n - 1];
      var m := Merge(rules, init);
      calc {
        Joined(Merge(rules, ss));
        Joined(Absorb(rules, m, last));
        { AbsorbJoined(rules, m, last); }
        Joined(m) + last.commits;
        { MergeJoined(rules, init); }
        Joined(init) + last.commits;
        Joined(ss);
      }
    }
  }

  /**
   * Merging, release by release: a run under a final tag adds its own
   * release; a run under a pre-release tag adds its changes, after the ones
   * already there, to the newer release before it. No other release changes.
   */
  lemma {:induction false} ReleasesOfAbsorb(cfg: Config, m: seq<Segment>, sg: Segment)
    requires |m| >= 1
    ensures var rs := SegmentReleases(cfg, m);
            var n := |m|;
            SegmentReleases(cfg, Absorb(cfg.rules, m, sg))
            == if sg.tag.Some? && IsFinal(cfg.rules, sg.tag.value) then rs + [SegmentRelease(cfg, sg)]
               else rs[..n - 1] + [rs[n - 1].(changes := AddChanges(rs[n - 1].changes, AllChanges(cfg, sg.commits)))]
  {
    if sg.tag.Some? && IsFinal(cfg.rules, sg.tag.value) {
      ReleasesOfSnoc(cfg, m, sg);
    } else {
      ReleasesOfJoin(cfg, m, sg);
    }
  }

  lemma {:induction false} ReleasesOfSnoc(cfg: Config, m: seq<Segment>, sg: Segment)
    ensures SegmentReleases(cfg, m + [sg]) == SegmentReleases(cfg, m) + [SegmentRelease(cfg, sg)]
  {
    var a := SegmentReleases(cfg, m + [sg]);
    var b := SegmentReleases(cfg, m) + [SegmentRelease(cfg, sg)];
    forall j | 0 <= j < |a| ensures a[j] == b[j] {
      if j < |m| {
        assert (m + [sg])[j] == m[j];
      }
    }
  }

  lemma {:induction false} ReleasesOfJoin(cfg: Config, m: seq<Segment>, sg: Segment)
    requires |m| >= 1
    ensures var rs := SegmentReleases(cfg, m);
            var n := |m|;
            var ml := m[n - 1];
            SegmentReleases(cfg, m[..n - 1] + [ml.(commits := ml.commits + sg.commits)])
            == rs[..n - 1] + [rs[n - 1].(changes := AddChanges(rs[n - 1].changes, AllChanges(cfg, sg.commits)))]
  {
    var n := |m|;
    var ml := m[n - 1];
    var joined := m[..n - 1] + [ml.(commits := ml.commits + sg.commits)];
    AllChangesAppend(cfg, ml.commits, sg.commits);
    AddChangesAppend([], AllChanges(cfg, ml.commits), AllChanges(cfg, sg.commits));
    var rs := SegmentReleases(cfg, m);
    var a := SegmentReleases(cfg, joined);
    var b := rs[..n - 1] + [rs[n - 1].(changes := AddChanges(rs[n - 1].changes, AllChanges(cfg, sg.commits)))];
    forall j | 0 <= j < n ensures a[j] == b[j] {
      if j < n - 1 {
        assert joined[j] == m[j];
      }
    }
  }

  lemma {:induction false} MergedSegmentsFrom(rules: TagRules, tags: seq<Tag>, head: Option<Tag>, cs: seq<Commit>)
    requires !rules.mergePrereleases
    ensures SegmentsFrom(rules.(mergePrereleases := true), tags, KeepFinalTag(rules, head), cs)
            == Merge(rules, SegmentsFrom(rules, tags, head, cs))
    decreases |cs|
  {
    var mr := rules.(mergePrereleases := true);
    if cs != [] {
      var init, c := cs[..|cs| - 1], cs[|cs| - 1];
      MergedSegmentsFrom(rules, tags, head, init);
      var ss := SegmentsFrom(rules, tags, head, init);
      var ms := SegmentsFrom(mr, tags, KeepFinalTag(rules, head), init);
      MergeTags(rules, ss);
      MergedOpeningTag(rules, tags, SegmentTags(ss), c);
      match OpeningTag(rules, tags, SegmentTags(ss), c)
      case None =>
        MergeExtend(rules, ss, c);
      case Some(t) =>
        MergeSnoc(rules, ss, Segment(Some(t), [c]));
    }
  }

  /**
   * Merging pre-releases, in terms of runs: the merged history's runs are its
   * unmerged runs merged, so each final release holds its own commits and then
   * those of the pre-releases just older than it, every other release is
   * unchanged, and no commit moves out of order. Without a release hook the
   * merged tree is the releases of those runs.
   */
  lemma {:induction false} MergedReleases(cfg: Config, tags: seq<Tag>, commits: seq<Commit>)
    requires !cfg.rules.mergePrereleases && cfg.releaseHook.None?
    ensures var merged := cfg.(rules := cfg.rules.(mergePrereleases := true));
            var ss := Segments(cfg.rules, tags, commits);
            && Segments(merged.rules, tags, commits) == Merge(cfg.rules, ss)
            && Joined(Merge(cfg.rules, ss)) == Joined(ss)
            && Tree(merged, tags, commits) == SegmentReleases(cfg, Merge(cfg.rules, ss))
  {
    var merged := cfg.(rules := cfg.rules.(mergePrereleases := true));
    var ss := Segments(cfg.rules, tags, commits);
    MergedSegments(cfg.rules, tags, commits);
    MergeJoined(cfg.rules, ss);
    TreeReleases(merged, tags, commits);
    SegmentReleasesSameFiling(cfg, merged, Merge(cfg.rules, ss));
  }

  /** With pre-releases merged, the runs of a history are its unmerged runs merged. */
  lemma {:induction false} MergedSegments(rules: TagRules, tags: seq<Tag>, commits: seq<Commit>)
    requires !rules.mergePrereleases
    ensures Segments(rules.(mergePrereleases := true), tags, commits) == Merge(rules, Segments(rules, tags, commits))
  {
    var mr := rules.(mergePrereleases := true);
    assert FirstTag(mr, tags, commits) == KeepFinalTag(rules, FirstTag(rules, tags, commits)) by {
      if commits != [] {
        MergedOpeningTag(rules, tags, [], commits[0]);
        assert KeepFinal(rules, []) == [];
      }
    }
    MergedSegmentsFrom(rules, tags, FirstTag(rules, tags, commits), commits);
  }

  /** The releases of runs depend neither on the tag rules nor on the release hook. */
  lemma {:induction false} SegmentReleasesSameFiling(cfg: Config, other: Config, ss: seq<Segment>)
    requires SameFiling(cfg, other)
    ensures SegmentReleases(other, ss) == SegmentReleases(cfg, ss)
  {
    forall j | 0 <= j < |ss| ensures SegmentRelease(other, ss[j]) == SegmentRelease(cfg, ss[j]) {
      AllChangesSameFiling(cfg, other, ss[j].commits);
    }
  }
}
