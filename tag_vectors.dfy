/**
 * The tag-classification cases of the changelog tests: the compiled forms of
 * the formats they use, the default rules on the fixture tags, and the five
 * named tags under three configurations, with the legacy-format check read
 * both as written and as meant.
 */
module TagVectors {
  import opened Wrappers
  import opened Digits
  import opened Versions
  import opened Git
  import opened Tags
  import opened ChangelogFixtures

  // ------------------------------------------------------- compiled formats

  lemma CompileVFormat()
    ensures Compile("v$version", false) == Lits("v") + [Slot(VersionPart)]
  {
    assert "v$version" == "v" + "$version";
    CompileVersionFormat("v", "$version", false);
  }

  lemma CompileVDashFormat()
    ensures Compile("v-$version", false) == Lits("v-") + [Slot(VersionPart)]
  {
    assert "v-$version" == "v-" + "$version";
    CompileVersionFormat("v-", "$version", false);
  }

  lemma CompileProjectFormat()
    ensures Compile("project-${version}", false) == Lits("project-") + [Slot(VersionPart)]
  {
    assert "project-${version}" == "project-" + "${version}";
    CompileVersionFormat("project-", "${version}", false);
  }

  lemma CompileIgnoredVersionFormat()
    ensures Compile("ignored-${version}", true) == Lits("ignored-") + [Slot(VersionPart)]
  {
    assert "ignored-${version}" == "ignored-" + "${version}";
    CompileVersionFormat("ignored-", "${version}", true);
  }

  lemma CompileWord(w: string)
    requires Plain(w)
    ensures Compile(w, true) == Lits(w)
  {
    assert w + "" == w;
    CompilePlain(w, "", true);
    assert Lits(w) + [] == Lits(w);
  }

  lemma CompileStarFormat()
    ensures Compile("star-*", true) == Lits("star-") + [Star]
  {
    assert "star-*" == "star-" + "*";
    CompilePlain("star-", "*", true);
    assert Compile("*", true) == [Star] + Compile("", true);
  }

  lemma CompileMinor()
    ensures Compile(".${minor}", true) == [Lit('.'), Slot(MinorPart)]
  {
    var b := "{minor}";
    assert HasPrefix(b, "{minor}") && !HasPrefix(b, "{version}");
    assert b[..7][1] == 'm' && b[..7][2] == 'i';
    assert !HasPrefix(b, "{major}");
    assert Placeholder(b) == Some((MinorPart, ""));
    assert Compile("${minor}", true) == [Slot(MinorPart)] by {
      assert "${minor}"[1..] == b;
    }
    assert ".${minor}" == "." + "${minor}";
    CompilePlain(".", "${minor}", true);
  }

  lemma CompileMajorMinor()
    ensures Compile("${major}.${minor}", true) == [Slot(MajorPart), Lit('.'), Slot(MinorPart)]
  {
    var a := "{major}.${minor}";
    assert "${major}.${minor}"[1..] == a;
    assert a[..9][1] == 'm';
    assert HasPrefix(a, "{major}") && !HasPrefix(a, "{version}");
    assert a[7..] == ".${minor}";
    assert Placeholder(a) == Some((MajorPart, ".${minor}"));
    CompileMinor();
  }

  lemma CompileNumbersFormat()
    ensures Compile("*-${major}.${minor}", true)
            == [Star, Lit('-'), Slot(MajorPart), Lit('.'), Slot(MinorPart)]
  {
    var t := "*-${major}.${minor}";
    assert t[1..] == "-${major}.${minor}";
    CompileDashMajorMinor();
  }

  lemma CompileDashMajorMinor()
    ensures Compile("-${major}.${minor}", true) == [Lit('-'), Slot(MajorPart), Lit('.'), Slot(MinorPart)]
  {
    var t := "-${major}.${minor}";
    assert t[1..] == "${major}.${minor}";
    CompileMajorMinor();
  }

  // --------------------------------------------- default rules, fixture tags

  /** Under the default rules a name made of an optional "v" and a version's text reads as that version. */
  lemma DefaultReadsName(name: string, marker: string, text: string, v: Version)
    requires marker == "" || marker == "v"
    requires WellFormed(v) && (text == Render(v) || text == Pep440Text(v))
    requires name == marker + text
    ensures ExtractVersion(DefaultRules, name) == Some(v)
  {
    assert DefaultRules.tagFormat == "" + "$version";
    assert "" + marker + text == name;
    NameOfVersion(DefaultRules, "", "$version", marker, text, v);
  }

  lemma IncludesFixtureTag00(t: Tag)
    requires t == Tag00()
    ensures IncludeInChangelog(DefaultRules, t)
  {
    var v := Version(1, 2, 0, None, None, None);
    assert Render(v) == "1.2.0";
    DefaultReadsName(t.name, "v", Render(v), v);
  }

  lemma IncludesFixtureTag01(t: Tag)
    requires t == Tag01()
    ensures IncludeInChangelog(DefaultRules, t)
  {
    var v := Version(1, 1, 1, None, None, None);
    assert Render(v) == "1.1.1";
    DefaultReadsName(t.name, "v", Render(v), v);
  }

  lemma IncludesFixtureTag02(t: Tag)
    requires t == Tag02()
    ensures IncludeInChangelog(DefaultRules, t)
  {
    var v := Version(1, 1, 0, None, None, None);
    assert Render(v) == "1.1.0";
    DefaultReadsName(t.name, "v", Render(v), v);
  }

  lemma IncludesFixtureTag03(t: Tag)
    requires t == Tag03()
    ensures IncludeInChangelog(DefaultRules, t)
  {
    var v := Version(1, 0, 0, None, None, None);
    assert Render(v) == "1.0.0";
    DefaultReadsName(t.name, "v", Render(v), v);
  }

  lemma IncludesFixtureTag04(t: Tag)
    requires t == Tag04()
    ensures IncludeInChangelog(DefaultRules, t)
  {
    var v := Version(1, 0, 0, Some(Pre(Beta, 2)), None, None);
    assert Pep440Text(v) == "1.0.0b2";
    DefaultReadsName(t.name, "", Pep440Text(v), v);
  }

  lemma IncludesFixtureTag05(t: Tag)
    requires t == Tag05()
    ensures IncludeInChangelog(DefaultRules, t)
  {
    var v := Version(1, 0, 0, Some(Pre(Beta, 1)), None, None);
    assert Pep440Text(v) == "1.0.0b1";
    DefaultReadsName(t.name, "v", Pep440Text(v), v);
  }

  lemma IncludesFixtureTag06(t: Tag)
    requires t == Tag06()
    ensures IncludeInChangelog(DefaultRules, t)
  {
    var v := Version(0, 9, 11, None, None, None);
    assert Render(v) == "0.9.11";
    DefaultReadsName(t.name, "v", Render(v), v);
  }

  lemma IncludesFixtureTag07(t: Tag)
    requires t == Tag07()
    ensures IncludeInChangelog(DefaultRules, t)
  {
    var v := Version(0, 9, 10, None, None, None);
    assert Render(v) == "0.9.10";
    DefaultReadsName(t.name, "v", Render(v), v);
  }

  lemma IncludesFixtureTag08(t: Tag)
    requires t == Tag08()
    ensures IncludeInChangelog(DefaultRules, t)
  {
    var v := Version(0, 9, 9, None, None, None);
    assert Render(v) == "0.9.9";
    DefaultReadsName(t.name, "v", Render(v), v);
  }

  lemma IncludesFixtureTag09(t: Tag)
    requires t == Tag09()
    ensures IncludeInChangelog(DefaultRules, t)
  {
    var v := Version(0, 9, 8, None, None, None);
    assert Render(v) == "0.9.8";
    DefaultReadsName(t.name, "v", Render(v), v);
  }

  lemma IncludesFixtureTag10(t: Tag)
    requires t == Tag10()
    ensures IncludeInChangelog(DefaultRules, t)
  {
    var v := Version(0, 9, 7, None, None, None);
    assert Render(v) == "0.9.7";
    DefaultReadsName(t.name, "v", Render(v), v);
  }

  lemma IncludesFixtureTag11(t: Tag)
    requires t == Tag11()
    ensures IncludeInChangelog(DefaultRules, t)
  {
    var v := Version(0, 9, 6, None, None, None);
    assert Render(v) == "0.9.6";
    DefaultReadsName(t.name, "v", Render(v), v);
  }

  lemma IncludesFixtureTag12(t: Tag)
    requires t == Tag12()
    ensures IncludeInChangelog(DefaultRules, t)
  {
    var v := Version(0, 9, 5, None, None, None);
    assert Render(v) == "0.9.5";
    DefaultReadsName(t.name, "v", Render(v), v);
  }

  lemma IncludesFixtureTag13(t: Tag)
    requires t == Tag13()
    ensures IncludeInChangelog(DefaultRules, t)
  {
    var v := Version(0, 9, 4, None, None, None);
    assert Render(v) == "0.9.4";
    DefaultReadsName(t.name, "v", Render(v), v);
  }

  lemma IncludesFixtureTag14(t: Tag)
    requires t == Tag14()
    ensures IncludeInChangelog(DefaultRules, t)
  {
    var v := Version(0, 9, 3, None, None, None);
    assert Render(v) == "0.9.3";
    DefaultReadsName(t.name, "v", Render(v), v);
  }

  lemma IncludesFixtureTag15(t: Tag)
    requires t == Tag15()
    ensures IncludeInChangelog(DefaultRules, t)
  {
    var v := Version(0, 9, 2, None, None, None);
    assert Render(v) == "0.9.2";
    DefaultReadsName(t.name, "v", Render(v), v);
  }

  lemma IncludesFixtureTag16(t: Tag)
    requires t == Tag16()
    ensures IncludeInChangelog(DefaultRules, t)
  {
    var v := Version(0, 9, 1, None, None, None);
    assert Render(v) == "0.9.1";
    DefaultReadsName(t.name, "v", Render(v), v);
  }

  /** The default rules take every fixture tag, with or without a leading "v". */
  lemma DefaultIncludesFixtureTags()
    ensures forall i | 0 <= i < |FixtureTags()| :: IncludeInChangelog(DefaultRules, FixtureTags()[i])
  {
    forall i | 0 <= i < |FixtureTags()|
      ensures IncludeInChangelog(DefaultRules, FixtureTags()[i])
    {
      if i == 0 { IncludesFixtureTag00(FixtureTags()[0]); }
      else if i == 1 { IncludesFixtureTag01(FixtureTags()[1]); }
      else if i == 2 { IncludesFixtureTag02(FixtureTags()[2]); }
      else if i == 3 { IncludesFixtureTag03(FixtureTags()[3]); }
      else if i == 4 { IncludesFixtureTag04(FixtureTags()[4]); }
      else if i == 5 { IncludesFixtureTag05(FixtureTags()[5]); }
      else if i == 6 { IncludesFixtureTag06(FixtureTags()[6]); }
      else if i == 7 { IncludesFixtureTag07(FixtureTags()[7]); }
      else if i == 8 { IncludesFixtureTag08(FixtureTags()[8]); }
      else if i == 9 { IncludesFixtureTag09(FixtureTags()[9]); }
      else if i == 10 { IncludesFixtureTag10(FixtureTags()[10]); }
      else if i == 11 { IncludesFixtureTag11(FixtureTags()[11]); }
      else if i == 12 { IncludesFixtureTag12(FixtureTags()[12]); }
      else if i == 13 { IncludesFixtureTag13(FixtureTags()[13]); }
      else if i == 14 { IncludesFixtureTag14(FixtureTags()[14]); }
      else if i == 15 { IncludesFixtureTag15(FixtureTags()[15]); }
      else if i == 16 { IncludesFixtureTag16(FixtureTags()[16]); }
    }
  }

  /** ... and reject a name that is no version. */
  lemma DefaultRejectsNotAVersion()
    ensures !IncludeInChangelog(DefaultRules, Tag("not_a_version", "rev", "date"))
  {
    CompileVersion(false);
    NotVersionText("not_a_version");
    BindLast(Slot(VersionPart), "not_a_version");
  }

  // ------------------------------------------------ the five named tags

  /** One row of the parametrised tag cases: the name and what it is meant to be. */
  datatype TagDef = TagDef(name: string, isVersion: bool, isLegacy: bool, isIgnored: bool)

  function TagParams(): seq<TagDef>
  {
    [ TagDef("1.2.3", true, false, false),
      TagDef("v-1.2.3", false, true, false),
      TagDef("project-1.2.3", false, true, false),
      TagDef("ignored", false, false, true),
      TagDef("unknown", false, false, false) ]
  }

  const FormatOnlyRules := TagRules("$version", [], [], false)
  const LegacyRules := TagRules("$version", ["v-$version", "project-${version}"], [], false)
  const IgnoredRules := TagRules("$version", [], ["ignored"], false)

  lemma NoVersionHoleMatch(name: string)
    requires WithoutV(name) == [] || !IsDigit(WithoutV(name)[0])
    ensures !MatchesFormat("$version", name)
  {
    CompileVersion(false);
    NotVersionText(name);
    BindLast(Slot(VersionPart), name);
  }

  lemma NoPrefixMatch(p: string, rest: seq<Piece>, name: string)
    requires !HasPrefix(name, p)
    ensures !Matches(Lits(p) + rest, name)
  {
    BindLits(p, rest, name);
  }

  lemma BareVersionMatches()
    ensures MatchesFormat("$version", "1.2.3")
  {
    var v := Version(1, 2, 3, None, None, None);
    assert Render(v) == "1.2.3";
    assert "" + "" + Render(v) == "1.2.3";
    NameOfVersion(FormatOnlyRules, "", "$version", "", Render(v), v);
  }

  lemma NotBareVersions()
    ensures !MatchesFormat("$version", "v-1.2.3") && !MatchesFormat("$version", "project-1.2.3")
    ensures !MatchesFormat("$version", "ignored") && !MatchesFormat("$version", "unknown")
  {
    assert WithoutV("v-1.2.3") == "-1.2.3";
    NoVersionHoleMatch("v-1.2.3");
    NoVersionHoleMatch("project-1.2.3");
    NoVersionHoleMatch("ignored");
    NoVersionHoleMatch("unknown");
  }

  lemma FormatOnlyAccepts()
    ensures IsVersionTag(FormatOnlyRules, "1.2.3")
  {
    BareVersionMatches();
    assert VersionFormats(FormatOnlyRules)[0] == "$version";
  }

  lemma FormatOnlyRejects(name: string)
    requires !MatchesFormat("$version", name)
    ensures !IsVersionTag(FormatOnlyRules, name)
  {
    assert VersionFormats(FormatOnlyRules) == ["$version"];
  }

  /** With the tag format alone, only "1.2.3" is a version tag. */
  lemma TagFormatOnlyVectors()
    ensures forall i | 0 <= i < |TagParams()| :: IsVersionTag(FormatOnlyRules, TagParams()[i].name) == TagParams()[i].isVersion
  {
    NotBareVersions();
    forall i | 0 <= i < |TagParams()|
      ensures IsVersionTag(FormatOnlyRules, TagParams()[i].name) == TagParams()[i].isVersion
    {
      var d := TagParams()[i];
      if i == 0 { FormatOnlyAccepts(); } else { FormatOnlyRejects(d.name); }
    }
  }

  lemma DashLegacyMatches()
    ensures MatchesFormat("v-$version", "v-1.2.3")
  {
    var v := Version(1, 2, 3, None, None, None);
    assert Render(v) == "1.2.3";
    assert "v-" + "" + Render(v) == "v-1.2.3";
    NameOfVersion(TagRules("v-$version", [], [], false), "v-", "$version", "", Render(v), v);
  }

  lemma ProjectLegacyMatches()
    ensures MatchesFormat("project-${version}", "project-1.2.3")
  {
    var v := Version(1, 2, 3, None, None, None);
    assert Render(v) == "1.2.3";
    assert "project-" + "" + Render(v) == "project-1.2.3";
    NameOfVersion(TagRules("project-${version}", [], [], false), "project-", "${version}", "", Render(v), v);
  }

  lemma NotLegacy(name: string)
    requires |name| < 8 && name != [] && name[0] != 'v'
    ensures !MatchesFormat("v-$version", name) && !MatchesFormat("project-${version}", name)
  {
    NotVDashFormat(name);
    NotProjectFormat(name);
  }

  lemma NotVDashFormat(name: string)
    requires name != [] && name[0] != 'v'
    ensures !MatchesFormat("v-$version", name)
  {
    CompileVDashFormat();
    assert !HasPrefix(name, "v-") by {
      if |name| >= 2 { assert name[..2][0] == name[0]; }
    }
    NoPrefixMatch("v-", [Slot(VersionPart)], name);
  }

  lemma NotProjectFormat(name: string)
    requires |name| < 8
    ensures !MatchesFormat("project-${version}", name)
  {
    CompileProjectFormat();
    NoPrefixMatch("project-", [Slot(VersionPart)], name);
  }

  /** A name that matches the k-th version format, under rules with no ignored format, is a version tag. */
  lemma VersionTagByFormat(rules: TagRules, name: string, k: nat)
    requires rules.ignoredFormats == [] && k < |VersionFormats(rules)|
    requires MatchesFormat(VersionFormats(rules)[k], name)
    ensures IsVersionTag(rules, name)
  {
  }

  /** The bare version and the two legacy names match a format of `LegacyRules`. */
  lemma LegacyAccepts(name: string)
    requires name == "1.2.3" || name == "v-1.2.3" || name == "project-1.2.3"
    ensures IsVersionTag(LegacyRules, name)
  {
    var f := VersionFormats(LegacyRules);
    assert f == ["$version", "v-$version", "project-${version}"];
    if name == "1.2.3" {
      BareVersionMatches();
      VersionTagByFormat(LegacyRules, name, 0);
    } else if name == "v-1.2.3" {
      DashLegacyMatches();
      VersionTagByFormat(LegacyRules, name, 1);
    } else {
      ProjectLegacyMatches();
      VersionTagByFormat(LegacyRules, name, 2);
    }
  }

  /** A short name that starts with neither 'v' nor a digit matches no format of `LegacyRules`. */
  lemma LegacyRejects(name: string)
    requires |name| < 8 && name != [] && name[0] != 'v' && !IsDigit(name[0])
    ensures !IsVersionTag(LegacyRules, name)
  {
    assert WithoutV(name) == name;
    NoVersionHoleMatch(name);
    NotLegacy(name);
    NoLegacyFormat(name);
  }

  lemma NoLegacyFormat(name: string)
    requires !MatchesFormat("$version", name)
    requires !MatchesFormat("v-$version", name) && !MatchesFormat("project-${version}", name)
    ensures !IsVersionTag(LegacyRules, name)
  {
    var f := VersionFormats(LegacyRules);
    assert f == ["$version", "v-$version", "project-${version}"];
    forall i | 0 <= i < |f|
      ensures !MatchesFormat(f[i], name)
    {
      if i == 0 { assert f[0] == "$version"; }
      else if i == 1 { assert f[1] == "v-$version"; }
      else { assert f[2] == "project-${version}"; }
    }
  }

  lemma LegacyRejectsRow(i: nat)
    requires 3 <= i < 5
    ensures !IsVersionTag(LegacyRules, TagParams()[i].name)
  {
    var name := TagParams()[i].name;
    if i == 3 {
      assert name == "ignored";
      assert name[0] == 'i';
    } else {
      assert name == "unknown";
      assert name[0] == 'u';
    }
    LegacyRejects(name);
  }

  lemma LegacyRow(i: nat)
    requires i < |TagParams()|
    ensures IsVersionTag(LegacyRules, TagParams()[i].name) == (TagParams()[i].isVersion || TagParams()[i].isLegacy)
  {
    var d := TagParams()[i];
    if i < 3 {
      LegacyAccepts(d.name);
      assert d.isVersion || d.isLegacy;
    } else {
      LegacyRejectsRow(i);
      assert !d.isVersion && !d.isLegacy;
    }
  }

  /** With the legacy formats, the two legacy names are version tags as well. */
  lemma LegacyFormatsVectors()
    ensures forall i | 0 <= i < |TagParams()| ::
      IsVersionTag(LegacyRules, TagParams()[i].name) == (TagParams()[i].isVersion || TagParams()[i].isLegacy)
  {
    forall i | 0 <= i < |TagParams()|
      ensures IsVersionTag(LegacyRules, TagParams()[i].name) == (TagParams()[i].isVersion || TagParams()[i].isLegacy)
    {
      LegacyRow(i);
    }
  }

  /** An ignored format of plain characters ignores exactly the name it spells. */
  lemma IgnoredWordMatch(w: string, name: string)
    requires Plain(w)
    ensures MatchesIgnoredFormat(w, name) == (name == w)
  {
    CompileWord(w);
    WordMatch(w, name);
  }

  /** A pattern of literal characters matches exactly its own text. */
  lemma WordMatch(w: string, name: string)
    ensures Matches(Lits(w), name) == (name == w)
  {
    assert Lits(w) + [] == Lits(w);
    BindLits(w, [], name);
    if name != w && HasPrefix(name, w) {
      assert name[|w|..] != [] by { assert name == name[..|w|] + name[|w|..]; }
    }
  }

  /** With ignored format "ignored", exactly the name "ignored" is ignored. */
  lemma IgnoredFormatsVectors()
    ensures forall i | 0 <= i < |TagParams()| :: IsIgnoredTag(IgnoredRules, TagParams()[i].name) == TagParams()[i].isIgnored
  {
    forall i | 0 <= i < |TagParams()|
      ensures IsIgnoredTag(IgnoredRules, TagParams()[i].name) == TagParams()[i].isIgnored
    {
      var d := TagParams()[i];
      IgnoredWordMatch("ignored", d.name);
      assert IgnoredRules.ignoredFormats[0] == "ignored";
      assert d.isIgnored == (d.name == "ignored") by {
        if i == 3 { assert d.name == "ignored"; } else { assert d.name[0] != 'i' || d.name == "unknown"; }
      }
    }
  }

  // ------------------------------------- the legacy-format check, two readings

  /**
   * The legacy-format check as its operators group: `is` binds tighter than
   * `or`, so a row marked legacy passes whatever the policy answers.
   */
  predicate LegacyCheckAsWritten(rules: TagRules, d: TagDef)
  {
    (IsVersionTag(rules, d.name) == d.isVersion) || d.isLegacy
  }

  /** The check as meant: a name is a version tag exactly when it is a current or a legacy version. */
  predicate LegacyCheckIntended(rules: TagRules, d: TagDef)
  {
    IsVersionTag(rules, d.name) == (d.isVersion || d.isLegacy)
  }

  /** The check as written passes on every row even for a policy that has no legacy formats at all. */
  lemma LegacyCheckAsWrittenIsVacuous()
    ensures forall i | 0 <= i < |TagParams()| :: LegacyCheckAsWritten(FormatOnlyRules, TagParams()[i])
  {
    TagFormatOnlyVectors();
  }

  /** The intended check holds for the legacy policy and catches the policy without legacy formats. */
  lemma LegacyCheckIntendedDecides()
    ensures forall i | 0 <= i < |TagParams()| :: LegacyCheckIntended(LegacyRules, TagParams()[i])
    ensures !LegacyCheckIntended(FormatOnlyRules, TagParams()[1])
  {
    LegacyFormatsVectors();
    TagFormatOnlyVectors();
    assert TagParams()[1].isLegacy;
  }
}
