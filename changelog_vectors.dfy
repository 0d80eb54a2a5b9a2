/**
 * The tag lookups of the changelog tests, on the fixture's tags: the newest
 * commit carries the newest tag, the commit before it carries none, and the
 * windows for a range of three tags and for a single tag each take one older
 * tag more.
 */
module ChangelogVectors {
  import opened Wrappers
  import opened Git
  import opened Changelog
  import opened ChangelogFixtures

  /** The release commit of the newest version, as the fixture records it. */
  function BumpCommit(): Commit
  {
    Commit("141ee44", "bump: version 1.1.1 → 1.2.0", "",
           "Commitizen", "author@cz.dev", ["6c49485"])
  }

  /** The documentation commit just before it. */
  function DocsCommit(): Commit
  {
    Commit("6c49485", "docs: how to create custom bumps", "",
           "Commitizen", "author@cz.dev", ["ddd220a"])
  }

  lemma NewestCommitCarriesNewestTag(commit: Commit, tags: seq<Tag>)
    requires commit == BumpCommit() && tags == FixtureTags()
    ensures GetCommitTag(commit, tags) == Some(Tag("v1.2.0", "141ee44", "2019-04-19"))
  {
    CommitTagIsFirstMatch(commit, tags, 0);
  }

  lemma DocsCommitCarriesNoTag(commit: Commit, tags: seq<Tag>)
    requires commit == DocsCommit() && tags == FixtureTags()
    ensures GetCommitTag(commit, tags) == None
  {
    // every fixture revision differs from the commit's in its first two characters
    assert commit.rev[0] == '6' && commit.rev[1] == 'c';
    forall i | 0 <= i < |tags| ensures tags[i].rev != commit.rev {
      TwoLeadingCharacters(tags, i);
    }
  }

  lemma TwoLeadingCharacters(tags: seq<Tag>, i: nat)
    requires tags == FixtureTags() && i < |tags|
    ensures |tags[i].rev| >= 2 && (tags[i].rev[0] != '6' || tags[i].rev[1] != 'c')
  {
  }

  /** From "v1.2.0" down to "v1.1.0": the three tags and the next older one. */
  lemma RangeTakesOneMore(tags: seq<Tag>)
    requires tags == FixtureTags()
    ensures |SmartTagRange(tags, tags[0].name, Some(tags[2].name))| == 4
  {
    assert tags[1].name != tags[2].name && tags[0].name != tags[2].name && tags[2].name != "";
    SmartTagRangeWindow(tags, tags[0].name, tags[2].name, 0, 2);
  }

  /** "v1.2.0" alone: the tag and the next older one. */
  lemma SingleTagTakesOneMore(tags: seq<Tag>)
    requires tags == FixtureTags()
    ensures |SmartTagRange(tags, tags[0].name, None)| == 2
  {
    SmartTagRangeSingle(tags, tags[0].name, 0);
  }
}
