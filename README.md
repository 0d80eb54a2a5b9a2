# Commitizen changelog and SemVer scheme, modelled in Dafny

Commitizen reads a Git history written in the Conventional Commits style. From
it, the tool bumps the project version and writes a changelog. This project models
the two cores its test suite pins down:

* **The SemVer version scheme.** Versions have a release triple, an optional
  pre-release phase (alpha, beta, rc), an optional development release and an
  optional local label. The model covers reading a version from its text and
  writing it back, both in the scheme's own dashed form (`1.0.1-rc0`) and in
  the normal form of PEP 440 (`1.0.1rc0`). It covers the bump rule: a major,
  minor or patch increment; entering or advancing a phase; exact increments;
  development releases; local-label bumps. It also covers the total order that
  sorting uses.
* **The changelog core.**
  * Tag rules: the tag format, legacy formats and ignored formats (with `*`
    wildcards and `$version`, `$major`, … placeholders). They classify a tag
    as a version tag, an ignored tag or an invalid tag, and read the version
    out of a tag name.
  * Finding the tag of a commit, and the "smart" tag range.
  * The release tree. The commit walk files each parsed change under its
    change type, in the release that the commit's tag opens. It handles
    merged pre-releases, the type map, and the per-message and per-release
    hooks.
  * Reordering a tree by a list of change types.

The model works on values:
* Versions, tags, commits, changes, buckets and releases are datatypes.
* A release's `changes` dictionary is a sequence of `Bucket(changeType, entries)`
  that keeps insertion order, as Python dicts do.
* The commit parser and the changelog pattern are parameters of the
  configuration. `parse` maps a message text to an optional parsed change.
* The two hooks are function-valued parameters.

The walk, filing a message, filing a commit and the classification of tags are
loops in the original code. They are written here as methods with loops
(`ReleaseTree.GenerateTree`, `ReleaseTree.FileCommit`, `ReleaseTree.FileMessage`,
`Buckets.FileChange`, `Tags.GetVersionTags`). Each is proved equal to a
recursive specification function, and the properties are proved about those
functions.

Which commits each release holds is stated through runs
(`ReleaseSegments`). The history is cut where a commit's tag opens a release,
and each release of the tree is proved to hold exactly the changes of its own
run. Merging pre-releases is stated on the same runs.

Every source line cited below is a test of the repository. The
implementation modules are not part of this model. Where the tests leave a
choice open, the model makes the choices listed under "Design choices" in
"## Left out".

## Model

| member | source | states |
|---|---|---|
| Versions.ParseVersion | tests/test_version_scheme_semver.py:8-40 | a version read from text is well formed (its local label is a non-empty run of lower-case letters, digits and dots) |
| Versions.ParseRender | tests/test_version_scheme_semver.py:124-144 | reading the scheme's dashed rendering of any well-formed version gives that version back |
| Versions.ParsePep440Text | tests/test_version_scheme_semver.py:8-40 | reading the PEP 440 normal form (`0.3.1a0`, `0.1.1rc0`) of any well-formed version gives that version back |
| Versions.ParseSpelledVersion | tests/test_version_scheme_semver.py:55-67 | a phase spelt `alpha`/`beta`/`c`/`pre`/`preview` directly after the triple reads as the normal-form phase |
| Versions.ParseSeparatedSpelledVersion | tests/test_version_scheme_semver.py:55-67 | the same holds with a `-`, `_` or `.` separator before the phase |
| Versions.RenderInjective | tests/test_version_scheme_semver.py:199-269 | two well-formed versions with the same rendering are equal |
| Versions.MaxKind | tests/test_version_scheme_semver.py:49-53 | the later of two phases is one of them and ranks at least as high as both |
| Versions.LeqTotal | tests/test_version_scheme_semver.py:199-269 | any two versions are comparable |
| Versions.LeqReflexive | tests/test_version_scheme_semver.py:199-269 | every version is at most itself |
| Versions.LeqTransitive | tests/test_version_scheme_semver.py:199-269 | the order is transitive |
| Versions.LeqAntisymmetric | tests/test_version_scheme_semver.py:199-269 | versions equal in the order have the same public part, both have or both lack a local label, and their labels agree segment by segment (the same word, or numbers of the same value) |
| Versions.LessIsStrict | tests/test_version_scheme_semver.py:199-269 | strictly-before holds exactly when at-most holds one way and not the other, and never both ways |
| Versions.LocalOrdering | tests/test_version_scheme_semver.py:42-46 | versions with the same public part compare by their local labels: no label first, then segment by segment, numbers above words, numbers by value, words by text, a shorter label that is a prefix first |
| Versions.ReleaseOrdering | tests/test_version_scheme_semver.py:206-269 | a smaller release triple sorts first, whatever the phases |
| Versions.PhaseOrdering | tests/test_version_scheme_semver.py:206-269 | with the same triple, development releases sort before alpha, alpha before beta, beta before rc, rc before final, and a lower phase number first |
| Versions.PrecedesIsLess | tests/test_version_scheme_semver.py:206-269 | the order of the sortable list (triple first, then phase) is the version order, and for versions without local labels the two orders coincide in both directions |
| SemVer.IncrementRaisesTriple | tests/test_version_scheme_semver.py:8-40 | an increment raises the triple; major resets minor and patch, minor keeps major and resets patch, patch keeps major and minor |
| SemVer.BumpFinalRelease | tests/test_version_scheme_semver.py:70-84 | from a final release, a bump takes the incremented triple, starts the requested phase at the offset, sets the development release, drops the local label, moves forward, and ignores exactness |
| SemVer.ExactBumpIncrements | tests/test_version_scheme_semver.py:147-165 | an exact bump always applies the increment, even to a pre-release, and starts the requested phase at the offset |
| SemVer.PrereleaseMovesForward | tests/test_version_scheme_semver.py:49-53 | a phase bump on a pre-release keeps the triple and never goes to an earlier phase; the same phase counts up by one, a new phase starts at the offset; the result sorts later |
| SemVer.FinalEntersPhase | tests/test_version_scheme_semver.py:55-67 | without an increment, a final release (`1` with beta) keeps its triple and enters the phase at the offset, whatever the exactness; the result sorts before the release |
| SemVer.DevReleaseEntersPhase | tests/test_version_scheme_semver.py:8-40 | a development release with no phase whose triple covers the increment keeps its triple and enters the phase at the offset; the result sorts later |
| SemVer.FinalisePrerelease | tests/test_version_scheme_semver.py:16-33 | a bump with no phase from a pre-release whose triple already covers the increment gives the final release of that triple |
| SemVer.PrereleaseTakesIncrement | tests/test_version_scheme_semver.py:70-84 | when a pre-release's triple does not cover the increment, the increment is applied and the result sorts later |
| SemVer.ReleaseTextIsLocal | tests/test_version_scheme_semver.py:42-46 | a rendered release triple is a valid local label |
| SemVer.LocalBump | tests/test_version_scheme_semver.py:168-187 | a local bump keeps the public part and ignores phase, offset, development release and exactness; it succeeds exactly when the label reads as a version; the new label reads back as that version bumped |
| SemVer.PublicBump | tests/test_version_scheme_semver.py:124-144 | a public bump always succeeds, drops the local label, carries the requested development release and round-trips through its text |
| SemVerVectors.BumpOfText | tests/test_version_scheme_semver.py:124-144 | bumping a text form of a version gives the rendering of the bumped version |
| SemVerVectors.ReadsOne | tests/test_version_scheme_semver.py:55-67 | `1` reads as 1.0.0 |
| SemVerVectors.ReadsSpelledAlpha | tests/test_version_scheme_semver.py:55-67 | `1.0.0alpha1` reads as 1.0.0 alpha 1 |
| SemVerVectors.SimpleFlowVectors | tests/test_version_scheme_semver.py:8-40 | every row of the simple-flow table bumps to its expected text |
| SemVerVectors.LocalVersionsVectors | tests/test_version_scheme_semver.py:42-46 | every row of the local-version table bumps to its expected text |
| SemVerVectors.LinearPrereleaseVectors | tests/test_version_scheme_semver.py:49-53 | every row of the linear pre-release table bumps to its expected text |
| SemVerVectors.WeirdVectors | tests/test_version_scheme_semver.py:55-67 | every row of the short-and-spelt-version table bumps to its expected text |
| SemVerVectors.TddVectors | tests/test_version_scheme_semver.py:70-84 | every row of the increment-with-phase table bumps to its expected text |
| SemVerVectors.ExactVectors | tests/test_version_scheme_semver.py:86-121 | every row of the exact-increment table bumps to its expected text |
| VersionSort.Sort | tests/test_version_scheme_semver.py:199-205 | sorting gives a sorted permutation of its input |
| VersionSort.SortedUnique | tests/test_version_scheme_semver.py:199-269 | two sorted arrangements of the same versions without local labels are equal |
| VersionSort.SortIsUnique | tests/test_version_scheme_semver.py:199-269 | sorting any permutation of a sorted list without local labels gives that list |
| VersionSort.SortedConcat | tests/test_version_scheme_semver.py:206-269 | two sorted lists joined where the last of one is at most the first of the other are sorted |
| VersionSort.FlowSortedIsSorted | tests/test_version_scheme_semver.py:206-269 | the test's expected order is sorted |
| VersionSort.SortableFlow | tests/test_version_scheme_semver.py:199-269 | sorting any shuffle of the test's versions gives its expected order |
| Tags.ExtractVersion | tests/test_changelog.py:598-608 | a version read from a tag name implies that the name matches the tag format and that the version is well formed |
| Tags.BindLits | tests/test_changelog.py:1546-1577 | a format's literal prefix matches exactly the names that start with it, and matching goes on after it |
| Tags.BindLast | tests/test_changelog.py:1573-1577 | a trailing wildcard or placeholder matches the whole rest of the name when it accepts it |
| Tags.LitOccurs | tests/test_changelog.py:1546-1577 | every literal character of a matching format occurs in the name |
| Tags.NumberBeforeLit | tests/test_changelog.py:1580-1637 | a number placeholder followed by a non-digit literal takes the leading digit run |
| Tags.NameOfVersion | tests/test_changelog.py:598-603 | a `prefix$version` format matches the prefix plus an optional `v` plus any version text, and reads that version back |
| Tags.NotVersionText | tests/test_changelog.py:605-608 | text that does not start with a digit (after an optional `v`) is not a version |
| Tags.Classify | tests/test_changelog.py:1546-1577 | a name is a version tag exactly when it matches a version format and no ignored format, and ignored exactly when it matches an ignored format |
| Tags.OfClassMembers | tests/test_changelog.py:1580-1637 | the tags of a class are exactly the input tags of that class, in input order |
| Tags.WarningsFor | tests/test_changelog.py:1633-1636 | one invalid-tag warning per tag, naming it |
| Tags.GetVersionTags | tests/test_changelog.py:1580-1637 | the loop returns the version tags, and the warnings for the invalid tags when warning is on (nothing otherwise) |
| Tags.ClassesPartition | tests/test_changelog.py:1580-1637 | every tag falls in exactly one of the three classes |
| TagVectors.DefaultIncludesFixtureTags | tests/test_changelog.py:598-602 | every fixture tag is included in the changelog under the default rules |
| TagVectors.DefaultRejectsNotAVersion | tests/test_changelog.py:605-608 | `not_a_version` is not included |
| TagVectors.TagFormatOnlyVectors | tests/test_changelog.py:1557-1560 | with only the tag format, exactly the rows marked as versions are version tags |
| TagVectors.LegacyFormatsVectors | tests/test_changelog.py:1563-1570 | with legacy formats, exactly the version and legacy rows are version tags |
| TagVectors.IgnoredFormatsVectors | tests/test_changelog.py:1573-1577 | with ignored formats, exactly the rows marked as ignored are ignored |
| TagVectors.LegacyCheckAsWrittenIsVacuous | tests/test_changelog.py:1563-1570 | as written, the legacy test's assertion holds for every row even under rules with no legacy formats |
| TagVectors.LegacyCheckIntendedDecides | tests/test_changelog.py:1563-1570 | the intended assertion holds for every row with legacy formats and fails for a legacy row without them |
| VersionTagVectors.MixedClassAt | tests/test_changelog.py:1580-1637 | each tag of the mixed list has its expected class |
| VersionTagVectors.MixedVersionTags | tests/test_changelog.py:1580-1637 | the version tags of the mixed list are its first three and the two `project-` tags, in order |
| VersionTagVectors.MixedVersionNames | tests/test_changelog.py:1625-1631 | those are `v1.1.0`, `v1.0.0`, `1.0.0b2`, `project-0.9.3`, `project-0.9.2` |
| VersionTagVectors.MixedWarnings | tests/test_changelog.py:1633-1636 | the warnings name `project-not-a-version` and `not-a-version`, in order |
| VersionTagVectors.MixedGetVersionTags | tests/test_changelog.py:1580-1637 | the loop on the mixed list returns those tags and warnings |
| Changelog.GetCommitTag | tests/test_changelog.py:585-595 | no tag exactly when no tag shares the commit's revision; otherwise the first tag that does |
| Changelog.CommitTagIsFirstMatch | tests/test_changelog.py:585-589 | the tag found is the first one with the commit's revision |
| Changelog.SmartTagRange | tests/test_changelog.py:1523-1535 | the range holds only tags of the input |
| Changelog.SmartTagRangeWindow | tests/test_changelog.py:1523-1529 | the range runs from the newest tag to the oldest and takes one older tag more when there is one |
| Changelog.SmartTagRangeSingle | tests/test_changelog.py:1532-1535 | a range with no oldest tag is the range from the tag to itself: the tag and one older tag |
| Changelog.SmartTagRangeOpenEnd | tests/test_changelog.py:1523-1535 | when no tag carries the oldest name, the range is everything from the newest tag on |
| Changelog.SmartTagRangeOldestFirst | tests/test_changelog.py:1523-1529 | when the oldest name comes before the newest, the pass stops there and the range is only the tag after it |
| Changelog.SmartTagRangeNeither | tests/test_changelog.py:1523-1535 | when no tag carries either name, the range is empty |
| ChangelogVectors.NewestCommitCarriesNewestTag | tests/test_changelog.py:585-589 | the bump commit to 1.2.0 carries tag `v1.2.0` |
| ChangelogVectors.DocsCommitCarriesNoTag | tests/test_changelog.py:592-595 | the documentation commit before it carries no tag |
| ChangelogVectors.RangeTakesOneMore | tests/test_changelog.py:1523-1529 | the range from `v1.2.0` to `v1.1.0` has four tags |
| ChangelogVectors.SingleTagTakesOneMore | tests/test_changelog.py:1532-1535 | the range of `v1.2.0` alone has two tags |
| Buckets.Keys | tests/test_changelog.py:1171-1173 | the keys of a changes dictionary are its change types, in order |
| Buckets.AddChange | tests/test_changelog.py:611-885 | filing a change appends it to its type's list, adds the type as a new last key when it is new, and adds one to the count |
| Buckets.FileChange | tests/test_changelog.py:611-885 | the dictionary append computes exactly the filing function |
| Buckets.LookupAddChanges | tests/test_changelog.py:611-885 | after filing a sequence, each type's list is the old list plus the filed changes of that type, in order |
| Buckets.CountAddChanges | tests/test_changelog.py:611-885 | filing a sequence adds its length to the count |
| Buckets.AddChangesAppend | tests/test_changelog.py:611-885 | filing two sequences in turn is filing their concatenation |
| Buckets.AddChangesWellFormed | tests/test_changelog.py:611-885 | filing keeps the keys distinct and no list empty |
| Buckets.KeysAddChanges | tests/test_changelog.py:611-885 | every key after filing was there before or is the type of a filed change |
| Buckets.EntriesAddChanges | tests/test_changelog.py:611-885 | the entries after filing are the old entries plus the filed changes |
| ReleaseTree.Paragraphs | tests/test_changelog.py:283-290 | a message splits into at least one paragraph |
| ReleaseTree.ParagraphsJoin | tests/test_changelog.py:283-290 | joining the paragraphs with blank lines gives the message back |
| ReleaseTree.ParagraphsAreMaximal | tests/test_changelog.py:283-290 | no paragraph holds a blank line, and no paragraph but the last ends in a newline |
| ReleaseTree.Messages | tests/test_changelog.py:726-736 | a commit's messages start with its title, followed by its body's paragraphs |
| ReleaseTree.RenameAll | tests/test_changelog.py:1379-1392 | there is one change per input change; each takes its mapped type when the map has one and keeps its type otherwise; every other field is kept |
| ReleaseTree.OpeningTag | tests/test_changelog.py:1157-1185 | a commit opens a release only with an unused tag of its own revision that the rules accept |
| ReleaseTree.FirstTag | tests/test_changelog.py:1157-1185 | the tag of the newest commit, when it opens a release |
| ReleaseTree.FileMessage | tests/test_changelog.py:1395-1500 | the loop files exactly the changes that the message yields after the hook and the type map |
| ReleaseTree.FileCommit | tests/test_changelog.py:1157-1185 | the loop files exactly the commit's contribution (title and, when the title passes, the body paragraphs) |
| ReleaseTree.FirstRelease | tests/test_changelog.py:1188-1196 | the walk starts with the newest commit's release tag when it opens a release, and with "Unreleased" (no date, no changes) otherwise |
| ReleaseTree.WalkCommit | tests/test_changelog.py:1157-1185 | one commit advances the walk exactly as the release-tree specification's step: a new release tag hands out the open release and opens its own, then the commit is filed |
| ReleaseTree.GenerateTree | tests/test_changelog.py:1157-1196 | the commit walk computes exactly the release-tree specification |
| ReleaseTreeLaws.TreeLabels | tests/test_changelog.py:1157-1185 | the releases are an `Unreleased` release (when the newest commit opens none) and then one per release tag, with its name and date, newest first |
| ReleaseTreeLaws.ReleaseTagsValid | tests/test_changelog.py:1157-1185 | every release tag is a distinct accepted tag of one of the commits |
| ReleaseTreeLaws.TreeOfNoCommits | tests/test_changelog.py:1188-1196 | no commits give the single empty `Unreleased` release |
| ReleaseTreeLaws.TreeChanges | tests/test_changelog.py:1157-1185 | for each type, the tree's entries read newest first are the commits' changes of that type, and the total count is the number of changes |
| ReleaseTreeLaws.TreeShape | tests/test_changelog.py:1171-1185 | every release's dictionary has distinct, non-empty keys, and its entries are changes of the commits |
| ReleaseTreeLaws.KeyHasEntry | tests/test_changelog.py:1171-1185 | every key of a release has an entry of that type |
| ReleaseTreeLaws.TreeProvenance | tests/test_changelog.py:1177-1183 | with no hooks, every entry carries the sha, author, author e-mail and parents of one of the commits |
| ReleaseTreeLaws.MergedTree | tests/test_changelog.py:887-1185 | merging pre-releases keeps only the final release tags and files the same changes of each type in the same order |
| ReleaseSegments.SegmentsPartition | tests/test_changelog.py:1157-1185 | the runs join back to the history in order; the first run is under the newest commit's opening tag, or untagged; each later run starts with the commit whose tag opens it; no other commit of a run would open a release |
| ReleaseSegments.RunPlace | tests/test_changelog.py:1157-1185 | run j is the slice `commits[a..b]` that follows the runs before it; the first run starts at the newest commit; each later run starts with the commit whose tag opens its release |
| ReleaseSegments.TreeReleases | tests/test_changelog.py:1157-1196 | without a release hook, release j of the tree is made from run j: named after its tag (or `Unreleased`) and holding exactly the changes of its commits; the runs' tags are the release tags |
| ReleaseSegments.ReleaseCommits | tests/test_changelog.py:1157-1185 | release j holds exactly the changes of the commits from the one that opens it up to the next one that opens a release, filed in order, and is named after that tag (`Unreleased` for the commits before the first one) |
| ReleaseSegments.MergeTags | tests/test_changelog.py:887-1185 | merging runs keeps exactly the final tags, in order |
| ReleaseSegments.MergeJoined | tests/test_changelog.py:887-1185 | merging runs moves no commit and keeps their order |
| ReleaseSegments.ReleasesOfAbsorb | tests/test_changelog.py:887-1185 | merging adds a run under a final tag as a release of its own, and adds the changes of a run under a pre-release tag after those of the newer release before it; no other release changes |
| ReleaseSegments.MergedReleases | tests/test_changelog.py:887-1185 | with pre-releases merged, the runs are the unmerged runs merged and the tree is made from them, release by release |
| ReleaseSegments.TreeClosedReleases | tests/test_changelog.py:1503-1520 | with or without a release hook, release j of the tree is run j's release handed out through the hook, which receives run j's own tag |
| ReleaseSegments.ReleaseHookGetsOwnTag | tests/test_changelog.py:1503-1520 | the release hook receives each release as the tree would hold it without the hook, together with the tag that release is named after (none for `Unreleased`) |
| ReleaseTreeLaws.DropHookEmptiesReleases | tests/test_changelog.py:1420-1443 | a message hook that drops every message leaves every release empty |
| ReleaseTreeLaws.OverrideHookRegroups | tests/test_changelog.py:1472-1500 | a hook that sets one change type files every entry under that type |
| ReleaseTreeLaws.FanOutHookMultiplies | tests/test_changelog.py:1446-1469 | a hook that returns n entries per message multiplies the entry count by n |
| ReleaseTreeLaws.ReleaseHookReachesAll | tests/test_changelog.py:1503-1520 | a release hook that sets an extra field reaches every release |
| ChangeOrder.FindBucket | tests/test_changelog.py:1199-1231 | the bucket found has the requested type and that type's entries; none exactly when the type is absent |
| ChangeOrder.GenerateOrderedTree | tests/test_changelog.py:1199-1239 | fails with "Change types contain duplicated types" exactly when the list repeats a type; otherwise keeps every release's version, date and extras |
| ChangeOrder.ReorderKeys | tests/test_changelog.py:1199-1231 | the reordered keys are the listed types present, in list order, then the others in their original order |
| ChangeOrder.ReorderLookup | tests/test_changelog.py:1199-1231 | reordering keeps every type's entries |
| ChangeOrder.ReorderPermutes | tests/test_changelog.py:1199-1231 | for a list without repeats, the reordered dictionary is a permutation of the original |
| ChangeOrder.ReorderByNothing | tests/test_changelog.py:1199-1231 | an empty list changes nothing |
| ChangeOrder.ReorderIdempotent | tests/test_changelog.py:1199-1231 | reordering twice by the same list is reordering once |
| ChangeOrder.OrderedTreeReleases | tests/test_changelog.py:1199-1231 | each ordered release has the reordered keys and the same entries, and is a permutation when its keys are distinct |
| ChangeOrder.OrderedTreeByNothing | tests/test_changelog.py:1199-1231 | an empty list gives the tree back |
| ChangeOrder.OrderedTreeStable | tests/test_changelog.py:1199-1231 | ordering an ordered tree again by the same list changes nothing |
| ChangeOrderVectors.FirstReleaseOrdered | tests/test_changelog.py:1199-1231 | `v1.2.0` keeps `feat` |
| ChangeOrderVectors.SecondReleaseOrdered | tests/test_changelog.py:1199-1231 | `v1.1.1` gets `refactor`, `fix` |
| ChangeOrderVectors.ThirdReleaseOrdered | tests/test_changelog.py:1199-1231 | `v1.1.0` goes from `feat`, `fix`, `refactor` to `refactor`, `feat`, `fix` |
| ChangeOrderVectors.FourthReleaseOrdered | tests/test_changelog.py:1199-1231 | `v1.0.0` goes from `refactor`, `BREAKING CHANGE` to `BREAKING CHANGE`, `refactor` |
| ChangeOrderVectors.ReleaseOrdered | tests/test_changelog.py:1199-1231 | a release's ordered keys are the listed types present, then the rest |
| ChangeOrderVectors.EmptyOrderKeepsTree | tests/test_changelog.py:1199-1231 | the empty list keeps the tree |
| ChangeOrderVectors.DuplicatedTypeRefused | tests/test_changelog.py:1234-1239 | a list naming `feat` twice is refused with the duplicated-types message |
| ChangeOrderVectors.AsWrittenCheckAcceptsAnyOrder | tests/test_changelog.py:1199-1231 | as written, the test's check accepts any result that keeps the versions, in whatever order |
| ChangeOrderVectors.IntendedCheckHolds | tests/test_changelog.py:1199-1231 | with `v`-prefixed keys the check holds for the ordered tree |
| ChangeOrderVectors.IntendedCheckRejectsUnordered | tests/test_changelog.py:1199-1231 | with `v`-prefixed keys the check rejects the tree left unordered |

## Left out

- Rendering the changelog through templates (Markdown, AsciiDoc, Textile, RestructuredText), the template loaders and the incremental update of an existing changelog file are not part of this model.
- The Conventional Commits grammar and its regular expressions are not modelled. The commit parser and the changelog pattern are parameters (`parse`, `accepts`) of the configuration, and every law holds for all of them.
- The Git commands are not modelled. The history is given as a sequence of commits, newest first, and the tags as a sequence of tags.
- Warnings about invalid tags are returned as a sequence of strings instead of being written to standard error.
- The changelog command, its configuration files and the output file name are not part of this model.
- The random shuffle of the sortable test is not modelled. `VersionSort.SortableFlow` holds for every permutation instead.
- The version-protocol and scheme-property checks rest on Python's runtime type checks. They are not modelled.
- PEP 440 epochs and post releases are not modelled. No SemVer test uses them.
- The link and author text that the message hook of the first hook test adds is not modelled. The hook is a function parameter, and the laws cover hooks that drop, re-type, fan out or keep messages.
- Commit and tag revisions are written in abbreviated form: the shortest prefix of at least seven hex digits that tells them apart, as git abbreviates them. The model only compares revisions for equality, so every comparison has the same outcome as with the full hashes.
- The 63-commit fixture is not replayed commit by commit. The expected trees of the generation test are not compared entry by entry. The release-tree lemmas are stated for every history and every commit parser, and they pin down which commits each release holds. The ordering vectors use the change-type skeleton of the fixture's first five releases.
- `ReleaseTreeLaws.TreeLabels`, `ReleaseTreeLaws.TreeChanges`, `ReleaseTreeLaws.TreeShape` and `ReleaseTreeLaws.MergedTree` are stated without a release hook. A release hook may rewrite a release arbitrarily. The same holds for `ReleaseSegments.TreeReleases`, `ReleaseSegments.ReleaseCommits` and `ReleaseSegments.MergedReleases`.
- `Versions.ParseVersion` reads only the forms the tests use. It refuses upper-case phase spellings and local labels, a leading `v`, epochs, post releases and a fourth release number, all of which PEP 440 accepts and normalises.
- `Tags.ExtractVersion` reads a version from a format without a `$version` placeholder only when `$major`, `$minor` and `$patch` all occur in it. A format that names only some of them reads no version; no test uses such a format.
- `ReleaseTreeLaws.TreeProvenance` is stated without hooks. A message hook may build entries from nothing.
- `ReleaseTreeLaws.FanOutHookMultiplies` counts entries. It does not state their contents, which the hook chooses.
- Design choices:
  - The type map renames the grouping key of a change, not only its displayed title. The test at tests/test_changelog.py:1379-1392 renders without the map and still expects the renamed title.
  - A body paragraph is parsed like a title, and only when the title passes the changelog pattern.
  - No `Unreleased` release is made when the newest commit opens a release.
  - An `Unreleased` release is made whenever the newest commit opens none, even when no change is filed in it (for example when every commit above the newest release tag is left out by the changelog pattern). `ReleaseTreeLaws.TreeLabels` states that count.
  - The release hook receives the release's own tag, as `ReleaseSegments.ReleaseHookGetsOwnTag` states.
  - A tag that matches an ignored format is ignored even when it also matches a version format.
  - Ordering keeps unlisted types in their original order after the listed ones.
  - A bare placeholder such as `$version` ends at an identifier boundary. In a format such as `$versionx` the text stays a literal.
  - The smart tag range is one pass over the tags. It starts keeping at the first tag with the newest name. It stops at the first tag with the oldest name and adds the tag after it. When the oldest name comes first, the range is only the tag after it. When no tag has the oldest name, the range runs to the end.
  - Local labels are split on dots. Two labels that differ only in the spelling of equal numbers (`1.01` and `1.1`) are equal in the order without being the same text.

## Findings

| source | as written | input that shows it | evidently intended | confidence | as-written member | corrected member |
|---|---|---|---|---|---|---|
| tests/test_changelog.py:1199-1231 | the expected orderings are keyed `"1.1.0"` and `"1.0.0"`, but the tree's versions are `"v1.1.0"` and `"v1.0.0"`, so the check skips every release | the tree left in its original order passes the check | key the expectations by `"v1.1.0"` and `"v1.0.0"` | not executed | ChangeOrderVectors.AsWrittenCheckAcceptsAnyOrder | ChangeOrderVectors.IntendedCheckRejectsUnordered |
| tests/test_changelog.py:1563-1570 | `is_version_tag(tag) is tag.is_version or tag.is_legacy` groups as `(… is tag.is_version) or tag.is_legacy`, so every legacy row passes | a legacy row such as `v-1.2.3` under rules without legacy formats | compare `is_version_tag` with `is_version or is_legacy` | not executed | TagVectors.LegacyCheckAsWrittenIsVacuous | TagVectors.LegacyCheckIntendedDecides |
