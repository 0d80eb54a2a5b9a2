/**
 * What the release tree promises: one release per opening tag, in commit
 * order, named and dated from its tag; every change filed exactly once, in
 * encounter order, under its own type; merging pre-releases only drops
 * release boundaries; and what each kind of hook does to the tree.
 */
module ReleaseTreeLaws {
  import opened Wrappers
  import opened Git
  import Versions
  import opened Tags
  import opened Changelog
  import opened Buckets
  import opened ReleaseTree

  function Releases(s: Walk): seq<Release> { s.done + [s.current] }

  /** The tags the walk opens releases for, beyond those already used, in commit order. */
  function Opened(rules: TagRules, tags: seq<Tag>, used: seq<Tag>, cs: seq<Commit>): seq<Tag>
  {
    if cs == [] then []
    else
      var o := Opened(rules, tags, used, cs[..|cs| - 1]);
      match OpeningTag(rules, tags, used + o, cs[|cs| - 1])
      case None => o
      case Some(t) => o + [t]
  }

  function StartTags(rules: TagRules, tags: seq<Tag>, commits: seq<Commit>): seq<Tag>
  {
    match FirstTag(rules, tags, commits)
    case None => []
    case Some(t) => [t]
  }

  /** The tags the tree has a release for, newest first. */
  function ReleaseTags(rules: TagRules, tags: seq<Tag>, commits: seq<Commit>): seq<Tag>
  {
    StartTags(rules, tags, commits) + Opened(rules, tags, StartTags(rules, tags, commits), commits)
  }

  /** Version and date of each release. */
  function Labels(rs: seq<Release>): (r: seq<(string, string)>)
    ensures |r| == |rs| && forall i | 0 <= i < |rs| :: r[i] == (rs[i].version, rs[i].date)
  {
    seq(|rs|, i requires 0 <= i < |rs| => (rs[i].version, rs[i].date))
  }

  /** Name and date of each tag. */
  function TagLabels(ts: seq<Tag>): (r: seq<(string, string)>)
    ensures |r| == |ts| && forall i | 0 <= i < |ts| :: r[i] == (ts[i].name, ts[i].date)
  {
    seq(|ts|, i requires 0 <= i < |ts| => (ts[i].name, ts[i].date))
  }

  // ------------------------------------------------------ release boundaries

  lemma {:induction false} FoldUsed(cfg: Config, tags: seq<Tag>, s: Walk, cs: seq<Commit>)
    ensures Fold(cfg, tags, s, cs).used == s.used + Opened(cfg.rules, tags, s.used, cs)
    ensures |Fold(cfg, tags, s, cs).done| == |s.done| + |Opened(cfg.rules, tags, s.used, cs)|
    decreases |cs|
  {
    if cs != [] {
      var init, last := cs[..|cs| - 1], cs[|cs| - 1];
      FoldUsed(cfg, tags, s, init);
      var p := Fold(cfg, tags, s, init);
      var o := Opened(cfg.rules, tags, s.used, init);
      assert Fold(cfg, tags, s, cs) == Step(cfg, tags, p, last);
      assert p.used == s.used + o;
      StepUsed(cfg, tags, p, last);
      match OpeningTag(cfg.rules, tags, p.used, last)
      case None =>
      case Some(t) => SeqAssoc(s.used, o, [t]);
    }
  }

  lemma StepUsed(cfg: Config, tags: seq<Tag>, p: Walk, c: Commit)
    ensures var q := Step(cfg, tags, p, c);
            match OpeningTag(cfg.rules, tags, p.used, c)
            case None => q.used == p.used && |q.done| == |p.done|
            case Some(t) => q.used == p.used + [t] && |q.done| == |p.done| + 1
  {
  }

  /** Opened tags are tags of the commits, open a release, were not used before, and are distinct. */
  lemma {:induction false} OpenedValid(rules: TagRules, tags: seq<Tag>, used: seq<Tag>, cs: seq<Commit>)
    ensures forall i | 0 <= i < |Opened(rules, tags, used, cs)| ::
              ValidTag(rules, tags, cs, Opened(rules, tags, used, cs)[i]) && Opened(rules, tags, used, cs)[i] !in used
    ensures forall i, j | 0 <= i < j < |Opened(rules, tags, used, cs)| ::
              Opened(rules, tags, used, cs)[i] != Opened(rules, tags, used, cs)[j]
    decreases |cs|
  {
    if cs != [] {
      var init := cs[..|cs| - 1];
      var last := cs[|cs| - 1];
      var o := Opened(rules, tags, used, init);
      OpenedValid(rules, tags, used, init);
      forall i | 0 <= i < |o| ensures ValidTag(rules, tags, cs, o[i]) {
        var c :| c in init && c.rev == o[i].rev;
        assert c in cs;
      }
      match OpeningTag(rules, tags, used + o, last)
      case None =>
      case Some(t) =>
        assert last in cs;
        assert ValidTag(rules, tags, cs, t);
        SnocValid(rules, tags, cs, used, o, t);
    }
  }

  lemma SnocValid(rules: TagRules, tags: seq<Tag>, cs: seq<Commit>, used: seq<Tag>, o: seq<Tag>, t: Tag)
    requires forall i | 0 <= i < |o| :: ValidTag(rules, tags, cs, o[i]) && o[i] !in used
    requires forall i, j | 0 <= i < j < |o| :: o[i] != o[j]
    requires ValidTag(rules, tags, cs, t) && t !in used + o
    ensures forall i | 0 <= i < |o + [t]| :: ValidTag(rules, tags, cs, (o + [t])[i]) && (o + [t])[i] !in used
    ensures forall i, j | 0 <= i < j < |o + [t]| :: (o + [t])[i] != (o + [t])[j]
  {
    var r := o + [t];
    forall i | 0 <= i < |r| ensures ValidTag(rules, tags, cs, r[i]) && r[i] !in used {
      if i < |o| { assert r[i] == o[i]; }
    }
    forall i, j | 0 <= i < j < |r| ensures r[i] != r[j] {
      assert r[i] == o[i];
      if j < |o| { assert r[j] == o[j]; } else { assert o[i] in used + o; }
    }
  }

  /** With no release hook, the releases are named and dated after the start and then the opened tags. */
  lemma {:induction false} FoldLabels(cfg: Config, tags: seq<Tag>, s: Walk, cs: seq<Commit>)
    requires cfg.releaseHook.None?
    ensures Labels(Releases(Fold(cfg, tags, s, cs))) == Labels(Releases(s)) + TagLabels(Opened(cfg.rules, tags, s.used, cs))
    decreases |cs|
  {
    if cs != [] {
      var init := cs[..|cs| - 1];
      var last := cs[|cs| - 1];
      var p := Fold(cfg, tags, s, init);
      var o := Opened(cfg.rules, tags, s.used, init);
      FoldLabels(cfg, tags, s, init);
      FoldUsed(cfg, tags, s, init);
      assert p.used == s.used + o;
      var x := OpenedBy(OpeningTag(cfg.rules, tags, p.used, last));
      assert Opened(cfg.rules, tags, s.used, cs) == o + x;
      assert Fold(cfg, tags, s, cs) == Step(cfg, tags, p, last);
      StepLabels(cfg, tags, p, last);
      TagLabelsAppend(o, x);
      SeqAssoc(Labels(Releases(s)), TagLabels(o), TagLabels(x));
    }
  }

  /** The tags a step opens: none, or the one it opens. */
  function OpenedBy(t: Option<Tag>): seq<Tag>
  {
    match t
    case None => []
    case Some(t) => [t]
  }

  /** One step adds the label of the tag it opens, if any. */
  lemma StepLabels(cfg: Config, tags: seq<Tag>, p: Walk, c: Commit)
    requires cfg.releaseHook.None?
    ensures Labels(Releases(Step(cfg, tags, p, c)))
            == Labels(Releases(p)) + TagLabels(OpenedBy(OpeningTag(cfg.rules, tags, p.used, c)))
  {
    var q := Step(cfg, tags, p, c);
    ReleasesOfStep(cfg, tags, p, c);
    match OpeningTag(cfg.rules, tags, p.used, c)
    case None =>
      LabelsSameLast(p.done, p.current, q.current);
      assert Labels(Releases(p)) + TagLabels([]) == Labels(Releases(p));
    case Some(t) =>
      LabelsSnoc(Releases(p), q.current);
      assert TagLabels([t]) == [(q.current.version, q.current.date)];
  }

  lemma LabelsSameLast(ds: seq<Release>, a: Release, b: Release)
    requires a.version == b.version && a.date == b.date
    ensures Labels(ds + [a]) == Labels(ds + [b])
  {
    assert forall i | 0 <= i < |ds| :: (ds + [a])[i] == (ds + [b])[i] == ds[i];
  }

  lemma LabelsSnoc(rs: seq<Release>, r: Release)
    ensures Labels(rs + [r]) == Labels(rs) + [(r.version, r.date)]
  {
    assert forall i | 0 <= i < |rs| :: (rs + [r])[i] == rs[i];
  }

  lemma TagLabelsAppend(xs: seq<Tag>, ys: seq<Tag>)
    ensures TagLabels(xs + ys) == TagLabels(xs) + TagLabels(ys)
  {
  }

  /**
   * Without a release hook the tree has one release per release tag, named
   * and dated from it, newest first, preceded by "Unreleased" exactly when the
   * newest commit carries no opening tag.
   */
  lemma TreeLabels(cfg: Config, tags: seq<Tag>, commits: seq<Commit>)
    requires cfg.releaseHook.None?
    ensures Labels(Tree(cfg, tags, commits))
            == (if FirstTag(cfg.rules, tags, commits).None? then [("Unreleased", "")] else [])
               + TagLabels(ReleaseTags(cfg.rules, tags, commits))
    ensures |Tree(cfg, tags, commits)|
            == (if FirstTag(cfg.rules, tags, commits).None? then 1 else 0) + |ReleaseTags(cfg.rules, tags, commits)|
  {
    var start := Start(cfg, tags, commits);
    var st := StartTags(cfg.rules, tags, commits);
    var o := Opened(cfg.rules, tags, st, commits);
    var pre: seq<(string, string)> := if FirstTag(cfg.rules, tags, commits).None? then [("Unreleased", "")] else [];
    StartLabels(cfg, tags, commits);
    FoldLabels(cfg, tags, start, commits);
    assert Tree(cfg, tags, commits) == Releases(Fold(cfg, tags, start, commits));
    TagLabelsAppend(st, o);
    SeqAssoc(pre, TagLabels(st), TagLabels(o));
    assert |Tree(cfg, tags, commits)| == |Labels(Tree(cfg, tags, commits))|;
  }

  /** The walk starts with the newest commit's opening tag, or with "Unreleased". */
  lemma StartLabels(cfg: Config, tags: seq<Tag>, commits: seq<Commit>)
    ensures var start := Start(cfg, tags, commits);
            && start.used == StartTags(cfg.rules, tags, commits)
            && Labels(Releases(start))
               == (if FirstTag(cfg.rules, tags, commits).None? then [("Unreleased", "")] else [])
                  + TagLabels(StartTags(cfg.rules, tags, commits))
  {
    var start := Start(cfg, tags, commits);
    match FirstTag(cfg.rules, tags, commits)
    case None =>
      assert Releases(start) == [Unreleased];
      assert Labels([Unreleased]) == [("Unreleased", "")];
    case Some(t) =>
      assert Releases(start) == [Open(t)];
      assert Labels([Open(t)]) == TagLabels([t]);
  }

  /** The release tags are distinct tags that open releases and point at the given commits. */
  lemma ReleaseTagsValid(rules: TagRules, tags: seq<Tag>, commits: seq<Commit>)
    ensures forall i | 0 <= i < |ReleaseTags(rules, tags, commits)| ::
              var t := ReleaseTags(rules, tags, commits)[i];
              t in tags && OpensRelease(rules, t) && exists c | c in commits :: c.rev == t.rev
    ensures forall i, j | 0 <= i < j < |ReleaseTags(rules, tags, commits)| ::
              ReleaseTags(rules, tags, commits)[i] != ReleaseTags(rules, tags, commits)[j]
  {
    var st := StartTags(rules, tags, commits);
    var o := Opened(rules, tags, st, commits);
    assert ReleaseTags(rules, tags, commits) == st + o;
    OpenedValid(rules, tags, st, commits);
    if st != [] {
      var t0 := FirstTag(rules, tags, commits).value;
      assert st == [t0];
      assert t0 in tags && OpensRelease(rules, t0) && t0.rev == commits[0].rev;
      assert commits[0] in commits;
    }
    JoinValid(rules, tags, commits, st, o, ReleaseTags(rules, tags, commits));
  }

  /** A tag that opens a release and points at one of the commits. */
  predicate ValidTag(rules: TagRules, tags: seq<Tag>, commits: seq<Commit>, t: Tag)
  {
    t in tags && OpensRelease(rules, t) && exists c | c in commits :: c.rev == t.rev
  }

  /** A valid start tag followed by valid opened tags that avoid it gives valid, distinct tags. */
  lemma JoinValid(rules: TagRules, tags: seq<Tag>, commits: seq<Commit>, st: seq<Tag>, o: seq<Tag>, rt: seq<Tag>)
    requires rt == st + o && |st| <= 1
    requires forall t | t in st :: ValidTag(rules, tags, commits, t)
    requires forall i | 0 <= i < |o| :: ValidTag(rules, tags, commits, o[i]) && o[i] !in st
    requires forall i, j | 0 <= i < j < |o| :: o[i] != o[j]
    ensures forall i | 0 <= i < |rt| :: ValidTag(rules, tags, commits, rt[i])
    ensures forall i, j | 0 <= i < j < |rt| :: rt[i] != rt[j]
  {
    forall i | 0 <= i < |rt| ensures ValidTag(rules, tags, commits, rt[i]) {
      if i < |st| {
        assert rt[i] in st;
      } else {
        assert rt[i] == o[i - |st|];
      }
    }
    forall i, j | 0 <= i < j < |rt| ensures rt[i] != rt[j] {
      assert rt[j] == o[j - |st|];
      if i < |st| {
        assert rt[i] in st;
      } else {
        assert rt[i] == o[i - |st|];
      }
    }
  }

  /** No commits: a single empty "Unreleased" release. */
  lemma TreeOfNoCommits(cfg: Config, tags: seq<Tag>)
    requires cfg.releaseHook.None?
    ensures Tree(cfg, tags, []) == [Release("Unreleased", "", [], map[])]
  {
  }

  // ------------------------------------------------------ where changes go

  /** The changes of type `k` over a list of releases, release after release. */
  function Flat(rs: seq<Release>, k: string): seq<Change>
  {
    if rs == [] then [] else Flat(rs[..|rs| - 1], k) + Lookup(rs[|rs| - 1].changes, k)
  }

  /** The number of changes over a list of releases. */
  function TotalCount(rs: seq<Release>): nat
  {
    if rs == [] then 0 else TotalCount(rs[..|rs| - 1]) + Count(rs[|rs| - 1].changes)
  }

  lemma FlatSnoc(rs: seq<Release>, r: Release, k: string)
    ensures Flat(rs + [r], k) == Flat(rs, k) + Lookup(r.changes, k)
  {
    assert (rs + [r])[..|rs|] == rs;
  }

  lemma TotalCountSnoc(rs: seq<Release>, r: Release)
    ensures TotalCount(rs + [r]) == TotalCount(rs) + Count(r.changes)
  {
    assert (rs + [r])[..|rs|] == rs;
  }

  lemma FlatExtend(rs: seq<Release>, r: Release, r': Release, add: seq<Change>, k: string)
    requires r'.changes == AddChanges(r.changes, add)
    ensures Flat(rs + [r'], k) == Flat(rs + [r], k) + OfType(add, k)
  {
    FlatSnoc(rs, r, k);
    FlatSnoc(rs, r', k);
    LookupAddChanges(r.changes, add, k);
    SeqAssoc(Flat(rs, k), Lookup(r.changes, k), OfType(add, k));
  }

  lemma FlatOpen(rs: seq<Release>, r: Release, add: seq<Change>, k: string)
    requires r.changes == AddChanges([], add)
    ensures Flat(rs + [r], k) == Flat(rs, k) + OfType(add, k)
  {
    FlatSnoc(rs, r, k);
    LookupAddChanges([], add, k);
  }

  lemma ReleasesOfStep(cfg: Config, tags: seq<Tag>, p: Walk, c: Commit)
    requires cfg.releaseHook.None?
    ensures var q := Step(cfg, tags, p, c);
            match OpeningTag(cfg.rules, tags, p.used, c)
            case None =>
              q.done == p.done && q.current == p.current.(changes := AddChanges(p.current.changes, Contribution(cfg, c)))
            case Some(t) =>
              q.done == Releases(p) && q.current == Open(t).(changes := AddChanges([], Contribution(cfg, c)))
  {
  }

  lemma StepFlat(cfg: Config, tags: seq<Tag>, p: Walk, c: Commit, k: string)
    requires cfg.releaseHook.None?
    ensures Flat(Releases(Step(cfg, tags, p, c)), k) == Flat(Releases(p), k) + OfType(Contribution(cfg, c), k)
  {
    var q := Step(cfg, tags, p, c);
    ReleasesOfStep(cfg, tags, p, c);
    var add := Contribution(cfg, c);
    match OpeningTag(cfg.rules, tags, p.used, c)
    case None =>
      assert Releases(q) == p.done + [q.current];
      FlatExtend(p.done, p.current, q.current, add, k);
    case Some(t) =>
      assert Releases(q) == Releases(p) + [q.current];
      FlatOpen(Releases(p), q.current, add, k);
  }

  /** Without a release hook, the changes of each type over the releases are those of the commits, in order. */
  lemma {:induction false} FoldFlat(cfg: Config, tags: seq<Tag>, s: Walk, cs: seq<Commit>, k: string)
    requires cfg.releaseHook.None?
    ensures Flat(Releases(Fold(cfg, tags, s, cs)), k) == Flat(Releases(s), k) + OfType(AllChanges(cfg, cs), k)
    decreases |cs|
  {
    if cs != [] {
      var init := cs[..|cs| - 1];
      var c := cs[|cs| - 1];
      FoldFlat(cfg, tags, s, init, k);
      StepFlat(cfg, tags, Fold(cfg, tags, s, init), c, k);
      OfTypeAppend(AllChanges(cfg, init), Contribution(cfg, c), k);
    }
  }

  lemma StepCount(cfg: Config, tags: seq<Tag>, p: Walk, c: Commit)
    requires cfg.releaseHook.None?
    ensures TotalCount(Releases(Step(cfg, tags, p, c))) == TotalCount(Releases(p)) + |Contribution(cfg, c)|
  {
    var q := Step(cfg, tags, p, c);
    ReleasesOfStep(cfg, tags, p, c);
    var add := Contribution(cfg, c);
    TotalCountSnoc(p.done, p.current);
    match OpeningTag(cfg.rules, tags, p.used, c)
    case None =>
      assert Releases(q) == p.done + [q.current];
      CountAddChanges(p.current.changes, add);
      TotalCountSnoc(p.done, q.current);
    case Some(t) =>
      assert Releases(q) == Releases(p) + [q.current];
      CountAddChanges([], add);
      TotalCountSnoc(Releases(p), q.current);
  }

  /** Without a release hook, the releases hold as many changes as the commits contribute. */
  lemma {:induction false} FoldCount(cfg: Config, tags: seq<Tag>, s: Walk, cs: seq<Commit>)
    requires cfg.releaseHook.None?
    ensures TotalCount(Releases(Fold(cfg, tags, s, cs))) == TotalCount(Releases(s)) + |AllChanges(cfg, cs)|
    decreases |cs|
  {
    if cs != [] {
      FoldCount(cfg, tags, s, cs[..|cs| - 1]);
      StepCount(cfg, tags, Fold(cfg, tags, s, cs[..|cs| - 1]), cs[|cs| - 1]);
    }
  }

  /**
   * Without a release hook, reading the changes of one type release after
   * release gives exactly the commits' changes of that type in commit order,
   * and the tree holds exactly as many changes as the commits contribute.
   */
  lemma TreeChanges(cfg: Config, tags: seq<Tag>, commits: seq<Commit>)
    requires cfg.releaseHook.None?
    ensures forall k :: Flat(Tree(cfg, tags, commits), k) == OfType(AllChanges(cfg, commits), k)
    ensures TotalCount(Tree(cfg, tags, commits)) == |AllChanges(cfg, commits)|
  {
    var start := Start(cfg, tags, commits);
    assert Tree(cfg, tags, commits) == Releases(Fold(cfg, tags, start, commits));
    StartIsEmpty(cfg, tags, commits);
    forall k ensures Flat(Tree(cfg, tags, commits), k) == OfType(AllChanges(cfg, commits), k) {
      FoldFlat(cfg, tags, start, commits, k);
    }
    FoldCount(cfg, tags, start, commits);
  }

  /** The walk starts with one release and no changes. */
  lemma StartIsEmpty(cfg: Config, tags: seq<Tag>, commits: seq<Commit>)
    ensures var rs := Releases(Start(cfg, tags, commits));
            (forall k :: Flat(rs, k) == []) && TotalCount(rs) == 0
  {
    var rs := Releases(Start(cfg, tags, commits));
    assert |rs| == 1 && rs[..0] == [] && rs[0].changes == [];
  }

  // ------------------------------------------------------ merging pre-releases

  /** A tag that opens a release and does not carry a pre-release version. */
  predicate IsFinal(rules: TagRules, t: Tag)
  {
    IncludeInChangelog(rules, t) && !Versions.IsPrerelease(ExtractVersion(rules, t.name).value)
  }

  /** The elements that `keep` holds for, in order. */
  function Filter<T>(xs: seq<T>, keep: T -> bool): seq<T>
  {
    if xs == [] then [] else Filter(xs[..|xs| - 1], keep) + (if keep(xs[|xs| - 1]) then [xs[|xs| - 1]] else [])
  }

  lemma {:induction false} FilterAppend<T>(xs: seq<T>, ys: seq<T>, keep: T -> bool)
    ensures Filter(xs + ys, keep) == Filter(xs, keep) + Filter(ys, keep)
    decreases |ys|
  {
    if ys == [] {
      assert xs + ys == xs;
    } else {
      FilterAppend(xs, ys[..|ys| - 1], keep);
      assert (xs + ys)[..|xs + ys| - 1] == xs + ys[..|ys| - 1];
    }
  }

  lemma FilterSnoc<T>(xs: seq<T>, x: T, keep: T -> bool)
    ensures Filter(xs + [x], keep) == Filter(xs, keep) + (if keep(x) then [x] else [])
  {
    assert (xs + [x])[..|xs|] == xs;
  }

  lemma {:induction false} FilterMembers<T>(xs: seq<T>, keep: T -> bool, x: T)
    requires keep(x)
    ensures x in Filter(xs, keep) <==> x in xs
    decreases |xs|
  {
    if xs != [] {
      FilterMembers(xs[..|xs| - 1], keep, x);
      assert xs == xs[..|xs| - 1] + [xs[|xs| - 1]];
    }
  }

  function Finals(rules: TagRules): Tag -> bool { t => IsFinal(rules, t) }

  /** The tags that do not carry a pre-release version, in order. */
  function KeepFinal(rules: TagRules, ts: seq<Tag>): seq<Tag> { Filter(ts, Finals(rules)) }

  lemma MergedOpens(rules: TagRules, t: Tag)
    requires !rules.mergePrereleases
    ensures OpensRelease(rules.(mergePrereleases := true), t) == IsFinal(rules, t)
    ensures IsFinal(rules, t) ==> OpensRelease(rules, t)
  {
    assert ExtractVersion(rules.(mergePrereleases := true), t.name) == ExtractVersion(rules, t.name);
  }

  lemma MergedOpeningTag(rules: TagRules, tags: seq<Tag>, used: seq<Tag>, c: Commit)
    requires !rules.mergePrereleases
    ensures OpeningTag(rules.(mergePrereleases := true), tags, KeepFinal(rules, used), c)
            == match OpeningTag(rules, tags, used, c)
               case None => None
               case Some(t) => if IsFinal(rules, t) then Some(t) else None
  {
    match GetCommitTag(c, tags)
    case None =>
    case Some(t) =>
      MergedOpens(rules, t);
      if IsFinal(rules, t) {
        FilterMembers(used, Finals(rules), t);
      }
  }

  lemma {:induction false} MergedOpened(rules: TagRules, tags: seq<Tag>, used: seq<Tag>, cs: seq<Commit>)
    requires !rules.mergePrereleases
    ensures Opened(rules.(mergePrereleases := true), tags, KeepFinal(rules, used), cs)
            == KeepFinal(rules, Opened(rules, tags, used, cs))
    decreases |cs|
  {
    if cs != [] {
      var init := cs[..|cs| - 1];
      var c := cs[|cs| - 1];
      var mr := rules.(mergePrereleases := true);
      var o := Opened(rules, tags, used, init);
      var ku := KeepFinal(rules, used);
      var mo := Opened(mr, tags, ku, init);
      MergedOpened(rules, tags, used, init);
      assert mo == KeepFinal(rules, o);
      FilterAppend(used, o, Finals(rules));
      assert ku + mo == KeepFinal(rules, used + o);
      MergedOpeningTag(rules, tags, used + o, c);
      assert Opened(mr, tags, ku, cs) == match OpeningTag(mr, tags, ku + mo, c) case None => mo case Some(t) => mo + [t];
      match OpeningTag(rules, tags, used + o, c)
      case None =>
        assert Opened(rules, tags, used, cs) == o;
      case Some(t) =>
        assert Opened(rules, tags, used, cs) == o + [t];
        FilterSnoc(o, t, Finals(rules));
    }
  }

  /**
   * Merging pre-releases keeps exactly the release tags that do not carry a
   * pre-release version, in the same order; the changes are filed the same
   * way, so each change type reads the same across the tree and no change is
   * lost or added.
   */
  lemma MergedTree(cfg: Config, tags: seq<Tag>, commits: seq<Commit>)
    requires !cfg.rules.mergePrereleases && cfg.releaseHook.None?
    ensures var merged := cfg.(rules := cfg.rules.(mergePrereleases := true));
            && ReleaseTags(merged.rules, tags, commits) == KeepFinal(cfg.rules, ReleaseTags(cfg.rules, tags, commits))
            && (forall k :: Flat(Tree(merged, tags, commits), k) == Flat(Tree(cfg, tags, commits), k))
            && TotalCount(Tree(merged, tags, commits)) == TotalCount(Tree(cfg, tags, commits))
  {
    var merged := cfg.(rules := cfg.rules.(mergePrereleases := true));
    var st := StartTags(cfg.rules, tags, commits);
    if commits != [] {
      MergedOpeningTag(cfg.rules, tags, [], commits[0]);
    }
    assert StartTags(merged.rules, tags, commits) == KeepFinal(cfg.rules, st) by {
      if st != [] {
        assert st[..0] == [];
      }
    }
    MergedOpened(cfg.rules, tags, st, commits);
    FilterAppend(st, Opened(cfg.rules, tags, st, commits), Finals(cfg.rules));
    AllChangesSameFiling(cfg, merged, commits);
    TreeChanges(cfg, tags, commits);
    TreeChanges(merged, tags, commits);
  }

  /** Two configurations that file commits alike: they differ at most in the tag rules and the release hook. */
  ghost predicate SameFiling(cfg: Config, other: Config)
  {
    other.accepts == cfg.accepts && other.parse == cfg.parse && other.typeMap == cfg.typeMap && other.messageHook == cfg.messageHook
  }

  lemma {:induction false} ChangesOfAllSameFiling(cfg: Config, other: Config, c: Commit, texts: seq<string>)
    requires SameFiling(cfg, other)
    ensures ChangesOfAll(other, c, texts) == ChangesOfAll(cfg, c, texts)
    decreases |texts|
  {
    if texts != [] {
      ChangesOfAllSameFiling(cfg, other, c, texts[..|texts| - 1]);
      ChangesOfSameFiling(cfg, other, c, texts[|texts| - 1]);
    }
  }

  lemma ChangesOfSameFiling(cfg: Config, other: Config, c: Commit, text: string)
    requires SameFiling(cfg, other)
    ensures ChangesOf(other, c, text) == ChangesOf(cfg, c, text)
  {
  }

  /** The changes a commit contributes depend neither on the tag rules nor on the release hook. */
  lemma {:induction false} AllChangesSameFiling(cfg: Config, other: Config, cs: seq<Commit>)
    requires SameFiling(cfg, other)
    ensures AllChanges(other, cs) == AllChanges(cfg, cs)
    decreases |cs|
  {
    if cs != [] {
      AllChangesSameFiling(cfg, other, cs[..|cs| - 1]);
      ChangesOfAllSameFiling(cfg, other, cs[|cs| - 1], Messages(cs[|cs| - 1]));
    }
  }
  // ------------------------------------------------------ shape of each release

  predicate AllWellFormed(rs: seq<Release>) { forall i | 0 <= i < |rs| :: WellFormed(rs[i].changes) }

  /** Every change filed in the releases is one of `es`. */
  predicate EntriesWithin(rs: seq<Release>, es: set<Change>) { forall i | 0 <= i < |rs| :: EntriesOf(rs[i].changes) <= es }

  function SetOf(cs: seq<Change>): set<Change> { set c | c in cs }

  lemma StepShape(cfg: Config, tags: seq<Tag>, p: Walk, c: Commit, es: set<Change>)
    requires cfg.releaseHook.None?
    requires AllWellFormed(Releases(p)) && EntriesWithin(Releases(p), es)
    ensures AllWellFormed(Releases(Step(cfg, tags, p, c)))
    ensures EntriesWithin(Releases(Step(cfg, tags, p, c)), es + SetOf(Contribution(cfg, c)))
  {
    var add := Contribution(cfg, c);
    ReleasesOfStep(cfg, tags, p, c);
    if OpeningTag(cfg.rules, tags, p.used, c).Some? {
      WalkShape(p, Step(cfg, tags, p, c), [], add, es);
    } else {
      WalkShape(p, Step(cfg, tags, p, c), p.current.changes, add, es);
    }
  }

  /** One step of the walk keeps every release well formed, whether it extends the open release or opens a new one. */
  lemma WalkShape(p: Walk, q: Walk, base: seq<Bucket>, add: seq<Change>, es: set<Change>)
    requires AllWellFormed(Releases(p)) && EntriesWithin(Releases(p), es)
    requires (q.done == p.done && base == p.current.changes) || (q.done == Releases(p) && base == [])
    requires q.current.changes == AddChanges(base, add)
    ensures AllWellFormed(Releases(q)) && EntriesWithin(Releases(q), es + SetOf(add))
  {
    assert WellFormed(base) && EntriesOf(base) <= es by {
      if base != [] { assert Releases(p)[|Releases(p)| - 1] == p.current; }
    }
    AddChangesWellFormed(base, add);
    EntriesAddChanges(base, add);
    assert q.done == Releases(p)[..|q.done|] by {
      if q.done == p.done { assert Releases(p)[..|p.done|] == p.done; }
    }
    ShapeOfPrefix(Releases(p), |q.done|, es, es + SetOf(add));
    ShapeOfSnoc(q.done, q.current, es + SetOf(add));
  }

  lemma ShapeOfPrefix(rs: seq<Release>, n: nat, es: set<Change>, es2: set<Change>)
    requires n <= |rs| && es <= es2
    requires AllWellFormed(rs) && EntriesWithin(rs, es)
    ensures AllWellFormed(rs[..n]) && EntriesWithin(rs[..n], es2)
  {
  }

  lemma ShapeOfSnoc(rs: seq<Release>, r: Release, es: set<Change>)
    requires AllWellFormed(rs) && EntriesWithin(rs, es)
    requires WellFormed(r.changes) && EntriesOf(r.changes) <= es
    ensures AllWellFormed(rs + [r]) && EntriesWithin(rs + [r], es)
  {
    forall i | 0 <= i < |rs + [r]|
      ensures WellFormed((rs + [r])[i].changes) && EntriesOf((rs + [r])[i].changes) <= es
    {
      if i < |rs| { assert (rs + [r])[i] == rs[i]; }
    }
  }

  lemma {:induction false} FoldShape(cfg: Config, tags: seq<Tag>, s: Walk, cs: seq<Commit>, es: set<Change>)
    requires cfg.releaseHook.None?
    requires AllWellFormed(Releases(s)) && EntriesWithin(Releases(s), es)
    ensures AllWellFormed(Releases(Fold(cfg, tags, s, cs)))
    ensures EntriesWithin(Releases(Fold(cfg, tags, s, cs)), es + SetOf(AllChanges(cfg, cs)))
    decreases |cs|
  {
    if cs != [] {
      var init := cs[..|cs| - 1];
      var c := cs[|cs| - 1];
      FoldShape(cfg, tags, s, init, es);
      StepShape(cfg, tags, Fold(cfg, tags, s, init), c, es + SetOf(AllChanges(cfg, init)));
      assert SetOf(AllChanges(cfg, cs)) == SetOf(AllChanges(cfg, init)) + SetOf(Contribution(cfg, c));
    }
  }

  /**
   * Without a release hook, every release groups its changes well (one
   * non-empty bucket per change type, each change under its own type), and
   * every filed change is one the commits contributed.
   */
  lemma TreeShape(cfg: Config, tags: seq<Tag>, commits: seq<Commit>)
    requires cfg.releaseHook.None?
    ensures AllWellFormed(Tree(cfg, tags, commits))
    ensures EntriesWithin(Tree(cfg, tags, commits), SetOf(AllChanges(cfg, commits)))
  {
    var start := Start(cfg, tags, commits);
    assert Tree(cfg, tags, commits) == Releases(Fold(cfg, tags, start, commits));
    assert forall i | 0 <= i < |Releases(start)| :: Releases(start)[i].changes == [];
    FoldShape(cfg, tags, start, commits, {});
    assert {} + SetOf(AllChanges(cfg, commits)) == SetOf(AllChanges(cfg, commits));
  }

  /** A change type of a well-formed group is the type of one of its changes. */
  lemma KeyHasEntry(bs: seq<Bucket>, i: nat)
    requires WellFormed(bs) && i < |bs|
    ensures exists e | e in EntriesOf(bs) :: e.changeType == bs[i].changeType
  {
    var e := bs[i].entries[0];
    assert e in bs[i].entries;
    assert e in EntriesOf(bs);
  }

  // ------------------------------------------------------ where a change comes from

  /** The change carries the commit's revision, parents and author. */
  predicate FromCommit(e: Change, c: Commit)
  {
    e.sha1 == c.rev && e.parents == c.parents && e.author == c.author && e.authorEmail == c.authorEmail
  }

  lemma {:induction false} ChangesOfAllFrom(cfg: Config, c: Commit, texts: seq<string>)
    requires cfg.messageHook.None?
    ensures forall e | e in ChangesOfAll(cfg, c, texts) :: FromCommit(e, c)
    decreases |texts|
  {
    if texts != [] {
      ChangesOfAllFrom(cfg, c, texts[..|texts| - 1]);
    }
  }

  lemma {:induction false} AllChangesFrom(cfg: Config, cs: seq<Commit>)
    requires cfg.messageHook.None?
    ensures forall e | e in AllChanges(cfg, cs) :: exists c | c in cs :: FromCommit(e, c)
    decreases |cs|
  {
    if cs != [] {
      var init := cs[..|cs| - 1];
      var c := cs[|cs| - 1];
      AllChangesFrom(cfg, init);
      ChangesOfAllFrom(cfg, c, Messages(c));
      assert forall x | x in init :: x in cs;
      assert c in cs;
    }
  }

  /**
   * Without hooks, every change in the tree carries the revision, parents,
   * author and author e-mail of one of the given commits.
   */
  lemma TreeProvenance(cfg: Config, tags: seq<Tag>, commits: seq<Commit>)
    requires cfg.releaseHook.None? && cfg.messageHook.None?
    ensures forall r, e | r in Tree(cfg, tags, commits) && e in EntriesOf(r.changes) ::
              exists c | c in commits :: FromCommit(e, c)
  {
    TreeShape(cfg, tags, commits);
    AllChangesFrom(cfg, commits);
  }

  // ------------------------------------------------------ message hooks

  lemma {:induction false} DroppedChangesOfAll(cfg: Config, c: Commit, texts: seq<string>)
    requires cfg.messageHook.Some? && forall x: Change, y: Commit :: cfg.messageHook.value(x, y) == Drop
    ensures ChangesOfAll(cfg, c, texts) == []
    decreases |texts|
  {
    if texts != [] {
      DroppedChangesOfAll(cfg, c, texts[..|texts| - 1]);
    }
  }

  lemma {:induction false} DroppedAllChanges(cfg: Config, cs: seq<Commit>)
    requires cfg.messageHook.Some? && forall x: Change, y: Commit :: cfg.messageHook.value(x, y) == Drop
    ensures AllChanges(cfg, cs) == []
    decreases |cs|
  {
    if cs != [] {
      DroppedAllChanges(cfg, cs[..|cs| - 1]);
      DroppedChangesOfAll(cfg, cs[|cs| - 1], Messages(cs[|cs| - 1]));
    }
  }

  /** A message hook that drops everything leaves every release without changes. */
  lemma DropHookEmptiesReleases(cfg: Config, tags: seq<Tag>, commits: seq<Commit>)
    requires cfg.releaseHook.None?
    requires cfg.messageHook.Some? && forall x: Change, y: Commit :: cfg.messageHook.value(x, y) == Drop
    ensures forall r | r in Tree(cfg, tags, commits) :: r.changes == []
  {
    DroppedAllChanges(cfg, commits);
    TreeShape(cfg, tags, commits);
    var tree := Tree(cfg, tags, commits);
    forall r | r in tree ensures r.changes == [] {
      var i :| 0 <= i < |tree| && tree[i] == r;
      if r.changes != [] {
        KeyHasEntry(r.changes, 0);
        assert false;
      }
    }
  }

  lemma {:induction false} OverriddenChangesOfAll(cfg: Config, c: Commit, texts: seq<string>, k: string)
    requires cfg.messageHook.Some? && forall x: Change, y: Commit :: cfg.messageHook.value(x, y) == One(x.(changeType := k))
    requires k !in cfg.typeMap
    ensures forall e | e in ChangesOfAll(cfg, c, texts) :: e.changeType == k
    decreases |texts|
  {
    if texts != [] {
      OverriddenChangesOfAll(cfg, c, texts[..|texts| - 1], k);
    }
  }

  lemma {:induction false} OverriddenAllChanges(cfg: Config, cs: seq<Commit>, k: string)
    requires cfg.messageHook.Some? && forall x: Change, y: Commit :: cfg.messageHook.value(x, y) == One(x.(changeType := k))
    requires k !in cfg.typeMap
    ensures forall e | e in AllChanges(cfg, cs) :: e.changeType == k
    decreases |cs|
  {
    if cs != [] {
      OverriddenAllChanges(cfg, cs[..|cs| - 1], k);
      OverriddenChangesOfAll(cfg, cs[|cs| - 1], Messages(cs[|cs| - 1]), k);
    }
  }

  /** A message hook that sets every change type to `k` leaves `k` as the only change type in the tree. */
  lemma OverrideHookRegroups(cfg: Config, tags: seq<Tag>, commits: seq<Commit>, k: string)
    requires cfg.releaseHook.None?
    requires cfg.messageHook.Some? && forall x: Change, y: Commit :: cfg.messageHook.value(x, y) == One(x.(changeType := k))
    requires k !in cfg.typeMap
    ensures forall r | r in Tree(cfg, tags, commits) :: forall t | t in Keys(r.changes) :: t == k
  {
    OverriddenAllChanges(cfg, commits, k);
    TreeShape(cfg, tags, commits);
    var tree := Tree(cfg, tags, commits);
    forall r, t | r in tree && t in Keys(r.changes) ensures t == k {
      var i :| 0 <= i < |tree| && tree[i] == r;
      var j :| 0 <= j < |Keys(r.changes)| && Keys(r.changes)[j] == t;
      KeyHasEntry(r.changes, j);
    }
  }

  lemma Distribute(n: nat, a: nat, b: nat)
    ensures n * (a + b) == n * a + n * b
  {
  }

  lemma FannedChangesOf(cfg: Config, c: Commit, text: string, n: nat)
    requires cfg.messageHook.Some? && forall x: Change, y: Commit :: cfg.messageHook.value(x, y).Many? && |cfg.messageHook.value(x, y).changes| == n
    ensures |ChangesOf(cfg, c, text)| == n * |ChangesOf(cfg.(messageHook := None), c, text)|
  {
    match cfg.parse(text)
    case None =>
    case Some(p) =>
      assert |Hooked(cfg, BaseChange(p, c), c)| == n;
  }

  lemma {:induction false} FannedChangesOfAll(cfg: Config, c: Commit, texts: seq<string>, n: nat)
    requires cfg.messageHook.Some? && forall x: Change, y: Commit :: cfg.messageHook.value(x, y).Many? && |cfg.messageHook.value(x, y).changes| == n
    ensures |ChangesOfAll(cfg, c, texts)| == n * |ChangesOfAll(cfg.(messageHook := None), c, texts)|
    decreases |texts|
  {
    if texts != [] {
      var init := texts[..|texts| - 1];
      var last := texts[|texts| - 1];
      var plain := cfg.(messageHook := None);
      FannedChangesOfAll(cfg, c, init, n);
      FannedChangesOf(cfg, c, last, n);
      var a := |ChangesOfAll(plain, c, init)|;
      var b := |ChangesOf(plain, c, last)|;
      assert ChangesOfAll(plain, c, texts) == ChangesOfAll(plain, c, init) + ChangesOf(plain, c, last);
      assert ChangesOfAll(cfg, c, texts) == ChangesOfAll(cfg, c, init) + ChangesOf(cfg, c, last);
      assert |ChangesOfAll(cfg, c, texts)| == n * a + n * b;
      Distribute(n, a, b);
    }
  }

  lemma {:induction false} FannedAllChanges(cfg: Config, cs: seq<Commit>, n: nat)
    requires cfg.messageHook.Some? && forall x: Change, y: Commit :: cfg.messageHook.value(x, y).Many? && |cfg.messageHook.value(x, y).changes| == n
    ensures |AllChanges(cfg, cs)| == n * |AllChanges(cfg.(messageHook := None), cs)|
    decreases |cs|
  {
    if cs != [] {
      var init := cs[..|cs| - 1];
      var c := cs[|cs| - 1];
      var plain := cfg.(messageHook := None);
      FannedAllChanges(cfg, init, n);
      FannedChangesOfAll(cfg, c, Messages(c), n);
      var a := |AllChanges(plain, init)|;
      var b := |Contribution(plain, c)|;
      assert |Contribution(cfg, c)| == n * b;
      assert |AllChanges(plain, cs)| == a + b;
      assert |AllChanges(cfg, cs)| == n * a + n * b;
      Distribute(n, a, b);
    }
  }

  /** A message hook that returns `n` changes for each change makes the tree hold `n` times as many. */
  lemma FanOutHookMultiplies(cfg: Config, tags: seq<Tag>, commits: seq<Commit>, n: nat)
    requires cfg.releaseHook.None?
    requires cfg.messageHook.Some? && forall x: Change, y: Commit :: cfg.messageHook.value(x, y).Many? && |cfg.messageHook.value(x, y).changes| == n
    ensures TotalCount(Tree(cfg, tags, commits)) == n * TotalCount(Tree(cfg.(messageHook := None), tags, commits))
  {
    FannedAllChanges(cfg, commits, n);
    TreeChanges(cfg, tags, commits);
    TreeChanges(cfg.(messageHook := None), tags, commits);
  }

  // ------------------------------------------------------ release hooks

  predicate HasExtra(r: Release, key: string, value: string) { key in r.extras && r.extras[key] == value }

  lemma {:induction false} FoldExtras(cfg: Config, tags: seq<Tag>, s: Walk, cs: seq<Commit>, key: string, value: string)
    requires cfg.releaseHook.Some? && forall r: Release, t: Option<Tag> :: HasExtra(cfg.releaseHook.value(r, t), key, value)
    requires forall i | 0 <= i < |s.done| :: HasExtra(s.done[i], key, value)
    ensures forall i | 0 <= i < |Fold(cfg, tags, s, cs).done| :: HasExtra(Fold(cfg, tags, s, cs).done[i], key, value)
    decreases |cs|
  {
    if cs != [] {
      var p := Fold(cfg, tags, s, cs[..|cs| - 1]);
      FoldExtras(cfg, tags, s, cs[..|cs| - 1], key, value);
      assert HasExtra(Close(cfg, p), key, value);
    }
  }

  /** A release hook that sets an extra field reaches every release of the tree. */
  lemma ReleaseHookReachesAll(cfg: Config, tags: seq<Tag>, commits: seq<Commit>, key: string, value: string)
    requires cfg.releaseHook.Some? && forall r: Release, t: Option<Tag> :: HasExtra(cfg.releaseHook.value(r, t), key, value)
    ensures forall r | r in Tree(cfg, tags, commits) :: HasExtra(r, key, value)
  {
    var s := Fold(cfg, tags, Start(cfg, tags, commits), commits);
    FoldExtras(cfg, tags, Start(cfg, tags, commits), commits, key, value);
    assert HasExtra(Close(cfg, s), key, value);
  }
}
