/**
 * Building the release tree: commits are walked newest first, one release is
 * open at a time, a commit carrying a tag that opens a release closes the
 * open one and opens the tag's, and every accepted commit files the changes
 * its title and body paragraphs parse to under their change types.
 */
module ReleaseTree {
  import opened Wrappers
  import opened Git
  import opened Tags
  import opened Changelog
  import opened Buckets

  /** What the commit grammar reads out of one message. */
  datatype Parsed = Parsed(changeType: string, scope: Option<string>, breaking: Option<string>, message: string)

  /** A message hook keeps nothing, one change, or several. */
  datatype HookResult = Drop | One(change: Change) | Many(changes: seq<Change>)

  /** One release of the changelog; `extras` holds whatever a release hook adds. */
  datatype Release = Release(version: string, date: string, changes: seq<Bucket>, extras: map<string, string>)

  /**
   * Everything the walk is parameterised by: the tag policy, the changelog
   * filter on commit titles, the commit grammar, the change-type renaming,
   * and the two optional hooks.
   */
  datatype Config = Config(
    rules: TagRules,
    accepts: string -> bool,
    parse: string -> Option<Parsed>,
    typeMap: map<string, string>,
    messageHook: Option<(Change, Commit) -> HookResult>,
    releaseHook: Option<(Release, Option<Tag>) -> Release>)

  // ------------------------------------------------------ body paragraphs

  /** The pieces of `s` between occurrences of a blank line, split left to right. */
  function Paragraphs(s: string): (r: seq<string>)
    ensures |r| >= 1
    decreases |s|
  {
    if |s| < 2 then [s]
    else if s[0] == '\n' && s[1] == '\n' then [""] + Paragraphs(s[2..])
    else
      var rest := Paragraphs(s[1..]);
      [[s[0]] + rest[0]] + rest[1..]
  }

  /** Glues paragraphs back together with blank lines. */
  function JoinParagraphs(ps: seq<string>): string
    requires |ps| >= 1
  {
    if |ps| == 1 then ps[0] else ps[0] + "\n\n" + JoinParagraphs(ps[1..])
  }

  predicate HasBlankLine(s: string) { exists i | 0 <= i < |s| - 1 :: s[i] == '\n' && s[i + 1] == '\n' }

  /** Splitting loses nothing: the paragraphs joined back give the body. */
  lemma {:induction false} ParagraphsJoin(s: string)
    ensures JoinParagraphs(Paragraphs(s)) == s
    decreases |s|
  {
    if |s| >= 2 {
      if s[0] == '\n' && s[1] == '\n' {
        ParagraphsJoin(s[2..]);
        JoinAfterBlank(Paragraphs(s[2..]));
        assert s == "\n\n" + s[2..];
      } else {
        ParagraphsJoin(s[1..]);
        JoinConsChar(s[0], Paragraphs(s[1..]));
        assert s == [s[0]] + s[1..];
      }
    }
  }

  /** An empty first paragraph puts a blank line in front of the rest. */
  lemma JoinAfterBlank(ps: seq<string>)
    requires |ps| >= 1
    ensures JoinParagraphs([""] + ps) == "\n\n" + JoinParagraphs(ps)
  {
    var x := [""] + ps;
    assert x[0] == "" && x[1..] == ps;
    assert JoinParagraphs(x) == "" + "\n\n" + JoinParagraphs(ps);
    assert "" + "\n\n" == "\n\n";
  }

  /** A character glued to the first paragraph comes first in the joined text. */
  lemma JoinConsChar(c: char, ps: seq<string>)
    requires |ps| >= 1
    ensures JoinParagraphs([[c] + ps[0]] + ps[1..]) == [c] + JoinParagraphs(ps)
  {
    var x := [[c] + ps[0]] + ps[1..];
    if |ps| > 1 {
      var j := JoinParagraphs(ps[1..]);
      assert x[0] == [c] + ps[0] && x[1..] == ps[1..];
      assert JoinParagraphs(x) == ([c] + ps[0]) + "\n\n" + j;
      assert JoinParagraphs(ps) == ps[0] + "\n\n" + j;
      CharThenTexts(c, ps[0], "\n\n", j);
    } else {
      assert x == [[c] + ps[0]];
    }
  }

  lemma CharThenTexts(c: char, a: string, b: string, d: string)
    ensures ([c] + a) + b + d == [c] + (a + b + d)
  {
  }

  /** No paragraph holds a blank line, and only the last may end in a line break. */
  lemma {:induction false} ParagraphsAreMaximal(s: string)
    ensures forall i | 0 <= i < |Paragraphs(s)| :: !HasBlankLine(Paragraphs(s)[i])
    ensures forall i | 0 <= i < |Paragraphs(s)| - 1 :: Paragraphs(s)[i] == [] || Paragraphs(s)[i][|Paragraphs(s)[i]| - 1] != '\n'
    decreases |s|
  {
    if |s| >= 2 {
      if s[0] == '\n' && s[1] == '\n' {
        ParagraphsAreMaximal(s[2..]);
        MaximalCons("", Paragraphs(s[2..]));
      } else {
        var rest := Paragraphs(s[1..]);
        ParagraphsAreMaximal(s[1..]);
        FirstParagraphHead(s[1..]);
        NoBlankCons(s[0], rest[0]);
        var p := [s[0]] + rest[0];
        if |rest| > 1 && rest[0] == [] {
          assert s[1] == '\n';
        }
        MaximalCons(p, rest[1..]);
      }
    }
  }

  /** The first paragraph starts where the text does. */
  lemma FirstParagraphHead(t: string)
    ensures Paragraphs(t)[0] != [] ==> t != [] && Paragraphs(t)[0][0] == t[0]
    ensures |Paragraphs(t)| > 1 && Paragraphs(t)[0] == [] ==> |t| >= 2 && t[0] == '\n' && t[1] == '\n'
  {
  }

  lemma NoBlankCons(c: char, q: string)
    requires !HasBlankLine(q)
    requires q != [] ==> c != '\n' || q[0] != '\n'
    ensures !HasBlankLine([c] + q)
  {
    var p := [c] + q;
    forall i | 0 <= i < |p| - 1
      ensures !(p[i] == '\n' && p[i + 1] == '\n')
    {
      if i > 0 { assert p[i] == q[i - 1] && p[i + 1] == q[i]; }
    }
  }

  lemma MaximalCons(p: string, ps: seq<string>)
    requires !HasBlankLine(p) && (ps != [] ==> p == [] || p[|p| - 1] != '\n')
    requires forall i | 0 <= i < |ps| :: !HasBlankLine(ps[i])
    requires forall i | 0 <= i < |ps| - 1 :: ps[i] == [] || ps[i][|ps[i]| - 1] != '\n'
    ensures forall i | 0 <= i < |[p] + ps| :: !HasBlankLine(([p] + ps)[i])
    ensures forall i | 0 <= i < |[p] + ps| - 1 :: ([p] + ps)[i] == [] || ([p] + ps)[i][|([p] + ps)[i]| - 1] != '\n'
  {
    var r := [p] + ps;
    assert forall i | 1 <= i < |r| :: r[i] == ps[i - 1];
  }

  /** The texts of a commit the grammar is tried on: its title, then each body paragraph. */
  function Messages(c: Commit): (r: seq<string>)
    ensures |r| >= 2 && r[0] == c.title
  {
    [c.title] + Paragraphs(c.body)
  }

  // ------------------------------------------------------ changes of a commit

  /** The change a parsed message stands for, carrying the commit's revision, parents and author. */
  function BaseChange(p: Parsed, c: Commit): Change
  {
    Change(p.changeType, p.scope, p.breaking, p.message, c.rev, c.parents, c.author, c.authorEmail)
  }

  /** What the message hook makes of a change; the change alone when there is no hook. */
  function Hooked(cfg: Config, ch: Change, c: Commit): seq<Change>
  {
    match cfg.messageHook
    case None => [ch]
    case Some(h) =>
      match h(ch, c)
      case Drop => []
      case One(x) => [x]
      case Many(xs) => xs
  }

  /** The change type under the configured renaming. */
  function Renamed(typeMap: map<string, string>, ch: Change): Change
  {
    ch.(changeType := if ch.changeType in typeMap then typeMap[ch.changeType] else ch.changeType)
  }

  /** Each change under its renamed type, and otherwise as it was. */
  function RenameAll(typeMap: map<string, string>, xs: seq<Change>): (r: seq<Change>)
    ensures |r| == |xs|
    ensures forall i | 0 <= i < |xs| ::
              r[i].changeType == (if xs[i].changeType in typeMap then typeMap[xs[i].changeType] else xs[i].changeType)
    ensures forall i | 0 <= i < |xs| :: r[i].(changeType := xs[i].changeType) == xs[i]
  {
    seq(|xs|, i requires 0 <= i < |xs| => Renamed(typeMap, xs[i]))
  }

  /** The changes one message contributes: none when the grammar does not read it. */
  function ChangesOf(cfg: Config, c: Commit, text: string): seq<Change>
  {
    match cfg.parse(text)
    case None => []
    case Some(p) => RenameAll(cfg.typeMap, Hooked(cfg, BaseChange(p, c), c))
  }

  function ChangesOfAll(cfg: Config, c: Commit, texts: seq<string>): seq<Change>
  {
    if texts == [] then [] else ChangesOfAll(cfg, c, texts[..|texts| - 1]) + ChangesOf(cfg, c, texts[|texts| - 1])
  }

  /** The changes a commit contributes: nothing unless the changelog filter accepts its title. */
  function Contribution(cfg: Config, c: Commit): seq<Change>
  {
    if cfg.accepts(c.title) then ChangesOfAll(cfg, c, Messages(c)) else []
  }

  /** The changes of all commits, in walking order. */
  function AllChanges(cfg: Config, cs: seq<Commit>): seq<Change>
  {
    if cs == [] then [] else AllChanges(cfg, cs[..|cs| - 1]) + Contribution(cfg, cs[|cs| - 1])
  }

  // ------------------------------------------------------ the walk

  const Unreleased := Release("Unreleased", "", [], map[])

  function Open(t: Tag): Release { Release(t.name, t.date, [], map[]) }

  /** The walk's state: the closed releases, the open one, the tag it was opened for, the tags used so far. */
  datatype Walk = Walk(done: seq<Release>, current: Release, currentTag: Option<Tag>, used: seq<Tag>)

  /** The tag of the commit, when it opens a release not opened before. */
  function OpeningTag(rules: TagRules, tags: seq<Tag>, used: seq<Tag>, c: Commit): (r: Option<Tag>)
    ensures r.Some? ==> r.value in tags && r.value.rev == c.rev && r.value !in used && OpensRelease(rules, r.value)
  {
    match GetCommitTag(c, tags)
    case None => None
    case Some(t) => if t !in used && OpensRelease(rules, t) then Some(t) else None
  }

  /** The tag of the newest commit, when it opens a release: then no "Unreleased" release is made. */
  function FirstTag(rules: TagRules, tags: seq<Tag>, commits: seq<Commit>): (r: Option<Tag>)
    ensures r.Some? ==> commits != [] && r == OpeningTag(rules, tags, [], commits[0])
  {
    if commits == [] then None else OpeningTag(rules, tags, [], commits[0])
  }

  function Start(cfg: Config, tags: seq<Tag>, commits: seq<Commit>): Walk
  {
    match FirstTag(cfg.rules, tags, commits)
    case None => Walk([], Unreleased, None, [])
    case Some(t) => Walk([], Open(t), Some(t), [t])
  }

  /** The open release as it is handed out: through the release hook, with its own tag. */
  function Close(cfg: Config, s: Walk): Release
  {
    match cfg.releaseHook
    case None => s.current
    case Some(h) => h(s.current, s.currentTag)
  }

  /** One commit: maybe close the open release and open the tag's, then file the commit's changes. */
  function Step(cfg: Config, tags: seq<Tag>, s: Walk, c: Commit): Walk
  {
    var s1 :=
      match OpeningTag(cfg.rules, tags, s.used, c)
      case None => s
      case Some(t) => Walk(s.done + [Close(cfg, s)], Open(t), Some(t), s.used + [t]);
    s1.(current := s1.current.(changes := AddChanges(s1.current.changes, Contribution(cfg, c))))
  }

  function Fold(cfg: Config, tags: seq<Tag>, s: Walk, cs: seq<Commit>): Walk
  {
    if cs == [] then s else Step(cfg, tags, Fold(cfg, tags, s, cs[..|cs| - 1]), cs[|cs| - 1])
  }

  /** The release tree: the closed releases and the one still open at the end, newest first. */
  function Tree(cfg: Config, tags: seq<Tag>, commits: seq<Commit>): seq<Release>
  {
    var s := Fold(cfg, tags, Start(cfg, tags, commits), commits);
    s.done + [Close(cfg, s)]
  }

  // ------------------------------------------------------ the generator

  lemma AddChangesSnoc(bs: seq<Bucket>, xs: seq<Change>, c: Change)
    ensures AddChanges(bs, xs + [c]) == AddChange(AddChanges(bs, xs), c)
  {
    assert (xs + [c])[..|xs + [c]| - 1] == xs;
  }

  lemma AddChangesPrefix(bs: seq<Bucket>, xs: seq<Change>, k: nat)
    requires k < |xs|
    ensures AddChanges(bs, xs[..k + 1]) == AddChange(AddChanges(bs, xs[..k]), xs[k])
  {
    assert xs[..k + 1] == xs[..k] + [xs[k]];
    AddChangesSnoc(bs, xs[..k], xs[k]);
  }

  /** Files the changes of one message of `commit`, change by change. */
  method FileMessage(cfg: Config, commit: Commit, text: string, changes: seq<Bucket>) returns (r: seq<Bucket>)
    ensures r == AddChanges(changes, ChangesOf(cfg, commit, text))
  {
    r := changes;
    var parsed := cfg.parse(text);
    if parsed.Some? {
      var produced := Hooked(cfg, BaseChange(parsed.value, commit), commit);
      var renamed := RenameAll(cfg.typeMap, produced);
      for k := 0 to |produced|
        invariant r == AddChanges(changes, renamed[..k])
      {
        var ch := Renamed(cfg.typeMap, produced[k]);
        AddChangesPrefix(changes, renamed, k);
        r := FileChange(r, ch);
      }
      assert renamed[..|produced|] == renamed;
    }
  }

  lemma ChangesOfAllSnoc(cfg: Config, c: Commit, texts: seq<string>, j: nat)
    requires j < |texts|
    ensures ChangesOfAll(cfg, c, texts[..j + 1]) == ChangesOfAll(cfg, c, texts[..j]) + ChangesOf(cfg, c, texts[j])
  {
    assert texts[..j + 1][..j] == texts[..j];
  }

  /** Files every change of a commit: its title, then its body paragraphs, if the filter accepts it. */
  method FileCommit(cfg: Config, commit: Commit, changes: seq<Bucket>) returns (r: seq<Bucket>)
    ensures r == AddChanges(changes, Contribution(cfg, commit))
  {
    r := changes;
    if cfg.accepts(commit.title) {
      var texts := Messages(commit);
      for j := 0 to |texts|
        invariant r == AddChanges(changes, ChangesOfAll(cfg, commit, texts[..j]))
      {
        r := FileMessage(cfg, commit, texts[j], r);
        ChangesOfAllSnoc(cfg, commit, texts, j);
        AddChangesAppend(changes, ChangesOfAll(cfg, commit, texts[..j]), ChangesOf(cfg, commit, texts[j]));
      }
      assert texts[..|texts|] == texts;
    }
  }

  lemma StepKeeps(cfg: Config, tags: seq<Tag>, s: Walk, c: Commit)
    requires OpeningTag(cfg.rules, tags, s.used, c).None?
    ensures Step(cfg, tags, s, c) == s.(current := s.current.(changes := AddChanges(s.current.changes, Contribution(cfg, c))))
  {
  }

  lemma StepOpens(cfg: Config, tags: seq<Tag>, s: Walk, c: Commit, t: Tag)
    requires GetCommitTag(c, tags) == Some(t) && t !in s.used && OpensRelease(cfg.rules, t)
    ensures Step(cfg, tags, s, c)
            == Walk(s.done + [Close(cfg, s)], Open(t).(changes := AddChanges([], Contribution(cfg, c))), Some(t), s.used + [t])
  {
  }

  lemma FoldSnoc(cfg: Config, tags: seq<Tag>, s: Walk, cs: seq<Commit>, i: nat)
    requires i < |cs|
    ensures Fold(cfg, tags, s, cs[..i + 1]) == Step(cfg, tags, Fold(cfg, tags, s, cs[..i]), cs[i])
  {
    assert cs[..i + 1][..i] == cs[..i];
  }

  /** The release the walk starts with: the newest commit's tag when it opens one, else "Unreleased". */
  method FirstRelease(cfg: Config, tags: seq<Tag>, commits: seq<Commit>)
    returns (version: string, date: string, currentTag: Option<Tag>, used: seq<Tag>)
    ensures Walk([], Release(version, date, [], map[]), currentTag, used) == Start(cfg, tags, commits)
  {
    version, date := "Unreleased", "";
    currentTag := None;
    used := [];
    if commits != [] {
      var t := GetCommitTag(commits[0], tags);
      if t.Some? && OpensRelease(cfg.rules, t.value) {
        version, date := t.value.name, t.value.date;
        currentTag := t;
        used := [t.value];
      }
    }
  }

  /** One commit of the walk: a new release tag hands out the open release and opens its own, then the commit is filed. */
  method WalkCommit(cfg: Config, tags: seq<Tag>, w: Walk, commit: Commit) returns (next: Walk)
    ensures next == Step(cfg, tags, w, commit)
  {
    var done, current, currentTag, used := w.done, w.current, w.currentTag, w.used;
    var t := GetCommitTag(commit, tags);
    if t.Some? && t.value !in used && OpensRelease(cfg.rules, t.value) {
      StepOpens(cfg, tags, w, commit, t.value);
      var release := current;
      if cfg.releaseHook.Some? {
        release := cfg.releaseHook.value(release, currentTag);
      }
      done := done + [release];
      current := Open(t.value);
      currentTag := t;
      used := used + [t.value];
    } else {
      StepKeeps(cfg, tags, w, commit);
    }
    var changes := FileCommit(cfg, commit, current.changes);
    next := Walk(done, current.(changes := changes), currentTag, used);
  }

  /** Walks the commits newest first, keeping one release open, and yields the release tree. */
  method GenerateTree(cfg: Config, tags: seq<Tag>, commits: seq<Commit>) returns (tree: seq<Release>)
    ensures tree == Tree(cfg, tags, commits)
  {
    var version, date, currentTag, used := FirstRelease(cfg, tags, commits);
    var w := Walk([], Release(version, date, [], map[]), currentTag, used);
    ghost var start := w;
    for i := 0 to |commits|
      invariant w == Fold(cfg, tags, start, commits[..i])
    {
      FoldSnoc(cfg, tags, start, commits, i);
      w := WalkCommit(cfg, tags, w, commits[i]);
    }
    assert commits[..|commits|] == commits;
    var last := w.current;
    if cfg.releaseHook.Some? {
      last := cfg.releaseHook.value(last, w.currentTag);
    }
    tree := w.done + [last];
  }
}
