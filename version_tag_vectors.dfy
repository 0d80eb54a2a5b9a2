/**
 * The version tags of a twelve-tag list under a policy with a "v" tag format,
 * two legacy formats and four ignored formats (a plain word, a prefixed
 * version, a trailing wildcard and a leading wildcard with major and minor
 * placeholders): five version tags, five ignored tags, and a warning for each
 * of the two remaining names.
 */
module VersionTagVectors {
  import opened Wrappers
  import opened Digits
  import opened Versions
  import opened Git
  import opened Tags
  import opened TagVectors

  const NumbersFormat := "*-${major}.${minor}"

  const MixedRules := TagRules(
    "v$version",
    ["$version", "project-${version}"],
    ["known", "ignored-${version}", "star-*", NumbersFormat],
    false)

  function MixedTags(): (r: seq<Tag>)
    ensures |r| == 12
  {
    [ Tag("v1.1.0", "17efb44", "2019-04-14"),
      Tag("v1.0.0", "aa44a92", "2019-03-01"),
      Tag("1.0.0b2", "aab33d1", "2019-01-18"),
      Tag("project-not-a-version", "7c7e96b", "2019-01-17"),
      Tag("not-a-version", "c52eca6f74f844ab3ffbde61d98e", "2018-12-17"),
      Tag("star-something", "c52eca6f74f844ab3ffbde61d98f", "2018-11-12"),
      Tag("known", "b3f8989", "2018-09-22"),
      Tag("ignored-0.9.3", "684e025", "2018-09-22"),
      Tag("project-0.9.3", "dacc861", "2018-07-28"),
      Tag("anything-0.9", "5141f54", "2018-01-10"),
      Tag("project-0.9.2", "1541f54", "2017-11-11"),
      Tag("ignored-0.9.1", "46e9032", "2017-11-11") ]
  }

  /** The class each of the twelve tags is meant to have. */
  function MixedClasses(): (r: seq<TagClass>)
    ensures |r| == 12
  {
    [ VersionTagClass, VersionTagClass, VersionTagClass, InvalidTagClass,
      InvalidTagClass, IgnoredTagClass, IgnoredTagClass, IgnoredTagClass,
      VersionTagClass, IgnoredTagClass, VersionTagClass, IgnoredTagClass ]
  }

  // ---------------------------------------------------- the compiled formats

  const NumbersPieces := [Star, Lit('-'), Slot(MajorPart), Lit('.'), Slot(MinorPart)]

  /** The ignored formats of `MixedRules`, compiled with wildcards. */
  function IgnoredPieces(i: nat): seq<Piece>
    requires i < 4
  {
    if i == 0 then Lits("known")
    else if i == 1 then Lits("ignored-") + [Slot(VersionPart)]
    else if i == 2 then Lits("star-") + [Star]
    else NumbersPieces
  }

  /** The version formats of `MixedRules`, compiled without wildcards. */
  function VersionPieces(i: nat): seq<Piece>
    requires i < 3
  {
    if i == 0 then Lits("v") + [Slot(VersionPart)]
    else if i == 1 then Lits("") + [Slot(VersionPart)]
    else Lits("project-") + [Slot(VersionPart)]
  }

  lemma PiecesOfIgnored(i: nat)
    requires i < 4
    ensures Compile(MixedRules.ignoredFormats[i], true) == IgnoredPieces(i)
  {
    IgnoredFormatTexts();
    if i == 0 { CompileWord("known"); }
    else if i == 1 { CompileIgnoredVersionFormat(); }
    else if i == 2 { CompileStarFormat(); }
    else { CompileNumbersFormat(); }
  }

  lemma IgnoredFormatTexts()
    ensures MixedRules.ignoredFormats[0] == "known" && MixedRules.ignoredFormats[1] == "ignored-${version}"
    ensures MixedRules.ignoredFormats[2] == "star-*" && MixedRules.ignoredFormats[3] == NumbersFormat
  {
  }

  lemma PiecesOfVersion(i: nat)
    requires i < 3
    ensures Compile(VersionFormats(MixedRules)[i], false) == VersionPieces(i)
  {
    VersionFormatTexts();
    if i == 0 { CompileVFormat(); }
    else if i == 1 { CompileVersion(false); }
    else { CompileProjectFormat(); }
  }

  lemma VersionFormatTexts()
    ensures |VersionFormats(MixedRules)| == 3 && VersionFormats(MixedRules)[0] == "v$version"
    ensures VersionFormats(MixedRules)[1] == "$version" && VersionFormats(MixedRules)[2] == "project-${version}"
  {
  }

  // ------------------------------------------------------- matching the names

  lemma NoPrefix(p: string, rest: seq<Piece>, name: string)
    requires p != [] && name != [] && name[0] != p[0]
    ensures !Matches(Lits(p) + rest, name)
  {
    assert !HasPrefix(name, p) by { if |p| <= |name| { assert name[..|p|][0] == name[0]; } }
    BindLits(p, rest, name);
  }

  lemma PrefixedVersionMatch(prefix: string, name: string, text: string, v: Version)
    requires WellFormed(v) && (text == Render(v) || text == Pep440Text(v)) && name == prefix + text
    ensures Matches(Lits(prefix) + [Slot(VersionPart)], name)
  {
    ReadVersionText("", text, v);
    assert "" + text == text;
    BindPrefixedVersion(prefix, text);
  }

  lemma NumbersNeedChar(name: string, c: char)
    requires (c == '-' || c == '.') && c !in name
    ensures !Matches(NumbersPieces, name)
  {
    var ps := NumbersPieces;
    assert Lit(c) in ps by { if c == '-' { assert ps[1] == Lit(c); } else { assert ps[3] == Lit(c); } }
    if Matches(ps, name) {
      LitOccurs(ps, name, c);
    }
  }

  /** The leading wildcard must stop at the only dash, and "9." followed by a digit is no minor number. */
  lemma NumbersRejectProject(name: string, d: char)
    requires name == "project-0.9." + [d]
    ensures !Matches(NumbersPieces, name)
  {
    var rest := [Lit('-'), Slot(MajorPart), Lit('.'), Slot(MinorPart)];
    assert NumbersPieces == [Star] + rest;
    assert rest == [Lit('-')] + rest[1..];
    if Bind([Star] + rest, name).Some? {
      var k := BindSplit(Star, rest, name);
      BindLitHead('-', rest[1..], name[k..]);
      assert name[k..][1..] == name[k + 1..];
      DashAtSeven(name, d, k, rest[1..]);
      NoMinorNumber(name[8..], d, rest[1..]);
      assert false;
    }
  }

  /** In "project-0.9.?" the numbers can only follow the dash after "project". */
  lemma DashAtSeven(name: string, d: char, k: nat, ps: seq<Piece>)
    requires name == "project-0.9." + [d] && ps == [Slot(MajorPart), Lit('.'), Slot(MinorPart)]
    requires k < |name| && name[k] == '-' && Bind(ps, name[k + 1..]).Some?
    ensures k == 7
  {
    assert ps == [Slot(MajorPart), Lit('.')] + [Slot(MinorPart)];
    NumberBeforeLit(MajorPart, '.', [Slot(MinorPart)], name[k + 1..]);
    var prefix := "project-0.9.";
    assert name == prefix + [d] && k < |prefix|;
    assert prefix[k] == '-';
    DashInPrefix(prefix, k);
  }

  lemma DashInPrefix(prefix: string, k: nat)
    requires prefix == "project-0.9." && k < |prefix| && prefix[k] == '-'
    ensures k == 7
  {
  }

  /** "0.9." followed by one character is not a major and a minor number. */
  lemma NoMinorNumber(t: string, d: char, ps: seq<Piece>)
    requires t == "0.9." + [d] && ps == [Slot(MajorPart), Lit('.'), Slot(MinorPart)]
    ensures Bind(ps, t).None?
  {
    assert ps == [Slot(MajorPart), Lit('.')] + [Slot(MinorPart)];
    var u := "9." + [d];
    assert t == "0" + "." + u && t[1] == '.';
    assert t[2..] == u;
    DigitRunOfDigits("0", t[1..]);
    assert u[1] == '.';
    BindLast(Slot(MinorPart), u);
    if Bind(ps, t).Some? {
      NumberBeforeLit(MajorPart, '.', [Slot(MinorPart)], t);
    }
  }

  lemma NumbersMatchAnything(name: string)
    requires name == "anything-0.9"
    ensures Matches(NumbersPieces, name)
  {
    var rest := [Lit('-'), Slot(MajorPart), Lit('.'), Slot(MinorPart)];
    assert NumbersPieces == [Star] + rest;
    var u := name[8..];
    assert u == "-0.9";
    DashMajorMinorMatch(u, rest);
    BindSplitWitness(Star, rest, name, 8);
  }

  lemma DashMajorMinorMatch(u: string, rest: seq<Piece>)
    requires u == "-0.9" && rest == [Lit('-'), Slot(MajorPart), Lit('.'), Slot(MinorPart)]
    ensures Bind(rest, u).Some?
  {
    var ps := [Slot(MajorPart), Lit('.'), Slot(MinorPart)];
    assert rest == Lits("-") + ps;
    BindLits("-", ps, u);
    MajorMinorMatch(u[1..], ps);
  }

  lemma MajorMinorMatch(t: string, ps: seq<Piece>)
    requires t == "0.9" && ps == [Slot(MajorPart), Lit('.'), Slot(MinorPart)]
    ensures Bind(ps, t).Some?
  {
    assert ps == [Slot(MajorPart)] + [Lit('.'), Slot(MinorPart)];
    assert [Lit('.'), Slot(MinorPart)] == Lits(".") + [Slot(MinorPart)];
    BindLits(".", [Slot(MinorPart)], t[1..]);
    assert t[1..][1..] == "9";
    BindLast(Slot(MinorPart), t[1..][1..]);
    assert t[..1] == "0";
    BindSplitWitness(Slot(MajorPart), [Lit('.'), Slot(MinorPart)], t, 1);
  }

  // ------------------------------------------------------- classifying names

  /** A name of none of the four ignored shapes is not ignored. */
  lemma NotMixedIgnored(name: string)
    requires name != [] && name[0] != 'i' && name[0] != 's' && name != "known"
    requires !Matches(NumbersPieces, name)
    ensures !IsIgnoredTag(MixedRules, name)
  {
    forall i | 0 <= i < 4
      ensures !MatchesIgnoredFormat(MixedRules.ignoredFormats[i], name)
    {
      PiecesOfIgnored(i);
      NotIgnoredPieces(i, name);
    }
  }

  lemma NotIgnoredPieces(i: nat, name: string)
    requires i < 4 && name != [] && name[0] != 'i' && name[0] != 's' && name != "known"
    requires !Matches(NumbersPieces, name)
    ensures !Matches(IgnoredPieces(i), name)
  {
    if i == 0 { WordMatch("known", name); }
    else if i == 1 { NoPrefix("ignored-", [Slot(VersionPart)], name); }
    else if i == 2 { NoPrefix("star-", [Star], name); }
  }

  /** A name that starts with neither 'v', a digit nor 'p' matches no version format. */
  lemma NotMixedVersion(name: string)
    requires name != [] && name[0] != 'v' && !IsDigit(name[0])
    requires !Matches(VersionPieces(2), name)
    ensures !MatchesVersionFormat(MixedRules, name)
  {
    forall i | 0 <= i < 3
      ensures !MatchesFormat(VersionFormats(MixedRules)[i], name)
    {
      PiecesOfVersion(i);
      NotVersionPieces(i, name);
    }
  }

  lemma NotVersionPieces(i: nat, name: string)
    requires i < 3 && name != [] && name[0] != 'v' && !IsDigit(name[0])
    requires !Matches(VersionPieces(2), name)
    ensures !Matches(VersionPieces(i), name)
  {
    if i == 0 {
      NoPrefix("v", [Slot(VersionPart)], name);
    } else if i == 1 {
      NotBareVersion(name);
    }
  }

  lemma NotBareVersion(name: string)
    requires name != [] && name[0] != 'v' && !IsDigit(name[0])
    ensures !Matches(VersionPieces(1), name)
  {
    assert VersionPieces(1) == [Slot(VersionPart)];
    assert WithoutV(name) == name;
    NotVersionText(name);
    BindLast(Slot(VersionPart), name);
  }

  lemma ProjectNotAVersion(name: string)
    requires name == "project-not-a-version"
    ensures !Matches(VersionPieces(2), name)
  {
    var rest := name[8..];
    assert name == "project-" + rest;
    assert rest == "not-a-version" && rest[0] == 'n';
    NotVersionText(rest);
    BindPrefixedVersion("project-", rest);
  }

  lemma IgnoredByFormat(name: string, k: nat)
    requires k < 4 && Matches(IgnoredPieces(k), name)
    ensures Classify(MixedRules, name) == IgnoredTagClass
  {
    PiecesOfIgnored(k);
  }

  lemma VersionByFormat(name: string, k: nat)
    requires k < 3 && Matches(VersionPieces(k), name)
    requires !IsIgnoredTag(MixedRules, name)
    ensures Classify(MixedRules, name) == VersionTagClass
  {
    PiecesOfVersion(k);
  }

  /** A name that is a format's prefix and a version's text, with no dash, is a version tag. */
  lemma PrefixedVersionTag(k: nat, prefix: string, name: string, text: string, v: Version)
    requires k < 3 && VersionPieces(k) == Lits(prefix) + [Slot(VersionPart)]
    requires WellFormed(v) && (text == Render(v) || text == Pep440Text(v)) && name == prefix + text
    requires name != [] && name[0] != 'i' && name[0] != 's' && name != "known"
    requires !Matches(NumbersPieces, name)
    ensures Classify(MixedRules, name) == VersionTagClass
  {
    PrefixedVersionMatch(prefix, name, text, v);
    NotMixedIgnored(name);
    VersionByFormat(name, k);
  }

  // --------------------------------------------------------- one lemma a tag

  lemma MixedClass00(name: string)
    requires name == "v1.1.0"
    ensures Classify(MixedRules, name) == VersionTagClass
  {
    var v := Version(1, 1, 0, None, None, None);
    assert name == "v" + Render(v) && name[0] == 'v';
    NumbersNeedChar(name, '-');
    PrefixedVersionTag(0, "v", name, Render(v), v);
  }

  lemma MixedClass01(name: string)
    requires name == "v1.0.0"
    ensures Classify(MixedRules, name) == VersionTagClass
  {
    var v := Version(1, 0, 0, None, None, None);
    assert name == "v" + Render(v) && name[0] == 'v';
    NumbersNeedChar(name, '-');
    PrefixedVersionTag(0, "v", name, Render(v), v);
  }

  lemma MixedClass02(name: string)
    requires name == "1.0.0b2"
    ensures Classify(MixedRules, name) == VersionTagClass
  {
    var v := Version(1, 0, 0, Some(Pre(Beta, 2)), None, None);
    assert name == "" + Pep440Text(v) && name[0] == '1';
    NumbersNeedChar(name, '-');
    PrefixedVersionTag(1, "", name, Pep440Text(v), v);
  }

  lemma MixedClass03(name: string)
    requires name == "project-not-a-version"
    ensures Classify(MixedRules, name) == InvalidTagClass
  {
    assert name == "project-not-a-version" && name[0] == 'p';
    NumbersNeedChar(name, '.');
    NotMixedIgnored(name);
    ProjectNotAVersion(name);
    NotMixedVersion(name);
  }

  lemma MixedClass04(name: string)
    requires name == "not-a-version"
    ensures Classify(MixedRules, name) == InvalidTagClass
  {
    assert name == "not-a-version" && name[0] == 'n';
    NumbersNeedChar(name, '.');
    NotMixedIgnored(name);
    NoPrefix("project-", [Slot(VersionPart)], name);
    NotMixedVersion(name);
  }

  lemma MixedClass05(name: string)
    requires name == "star-something"
    ensures Classify(MixedRules, name) == IgnoredTagClass
  {
    assert name == "star-" + name[5..];
    assert HasPrefix(name, "star-");
    BindLits("star-", [Star], name);
    BindLast(Star, name[5..]);
    IgnoredByFormat(name, 2);
  }

  lemma MixedClass06(name: string)
    requires name == "known"
    ensures Classify(MixedRules, name) == IgnoredTagClass
  {
    assert name == "known";
    WordMatch("known", name);
    IgnoredByFormat(name, 0);
  }

  lemma MixedClass07(name: string)
    requires name == "ignored-0.9.3"
    ensures Classify(MixedRules, name) == IgnoredTagClass
  {
    var v := Version(0, 9, 3, None, None, None);
    assert name == "ignored-" + Render(v);
    PrefixedVersionMatch("ignored-", name, Render(v), v);
    IgnoredByFormat(name, 1);
  }

  lemma MixedClass08(name: string)
    requires name == "project-0.9.3"
    ensures Classify(MixedRules, name) == VersionTagClass
  {
    var v := Version(0, 9, 3, None, None, None);
    assert name == "project-" + Render(v) && name[0] == 'p';
    assert name == "project-0.9." + [name[12]];
    NumbersRejectProject(name, name[12]);
    PrefixedVersionTag(2, "project-", name, Render(v), v);
  }

  lemma MixedClass09(name: string)
    requires name == "anything-0.9"
    ensures Classify(MixedRules, name) == IgnoredTagClass
  {
    NumbersMatchAnything(name);
    IgnoredByFormat(name, 3);
  }

  lemma MixedClass10(name: string)
    requires name == "project-0.9.2"
    ensures Classify(MixedRules, name) == VersionTagClass
  {
    var v := Version(0, 9, 2, None, None, None);
    assert name == "project-" + Render(v) && name[0] == 'p';
    assert name == "project-0.9." + [name[12]];
    NumbersRejectProject(name, name[12]);
    PrefixedVersionTag(2, "project-", name, Render(v), v);
  }

  lemma MixedClass11(name: string)
    requires name == "ignored-0.9.1"
    ensures Classify(MixedRules, name) == IgnoredTagClass
  {
    var v := Version(0, 9, 1, None, None, None);
    assert name == "ignored-" + Render(v);
    PrefixedVersionMatch("ignored-", name, Render(v), v);
    IgnoredByFormat(name, 1);
  }

  lemma MixedClassAt(i: nat)
    requires i < 12
    ensures Classify(MixedRules, MixedTags()[i].name) == MixedClasses()[i]
  {
    if i == 0 { MixedClass00(MixedTags()[0].name); }
    else if i == 1 { MixedClass01(MixedTags()[1].name); }
    else if i == 2 { MixedClass02(MixedTags()[2].name); }
    else if i == 3 { MixedClass03(MixedTags()[3].name); }
    else if i == 4 { MixedClass04(MixedTags()[4].name); }
    else if i == 5 { MixedClass05(MixedTags()[5].name); }
    else if i == 6 { MixedClass06(MixedTags()[6].name); }
    else if i == 7 { MixedClass07(MixedTags()[7].name); }
    else if i == 8 { MixedClass08(MixedTags()[8].name); }
    else if i == 9 { MixedClass09(MixedTags()[9].name); }
    else if i == 10 { MixedClass10(MixedTags()[10].name); }
    else { MixedClass11(MixedTags()[11].name); }
  }

  // ------------------------------------------------------------ the result

  /** The tags whose listed class is `c`, in order. */
  function Select(tags: seq<Tag>, cls: seq<TagClass>, c: TagClass): seq<Tag>
    requires |cls| == |tags|
  {
    if tags == [] then []
    else (if cls[0] == c then [tags[0]] else []) + Select(tags[1..], cls[1..], c)
  }

  lemma {:induction false} OfClassByClasses(rules: TagRules, tags: seq<Tag>, cls: seq<TagClass>, c: TagClass)
    requires |cls| == |tags|
    requires forall i | 0 <= i < |tags| :: Classify(rules, tags[i].name) == cls[i]
    ensures OfClass(rules, tags, c) == Select(tags, cls, c)
    decreases |tags|
  {
    if tags != [] {
      var n := |tags| - 1;
      OfClassByClasses(rules, tags[..n], cls[..n], c);
      SelectAppend(tags[..n], cls[..n], [tags[n]], [cls[n]], c);
      assert tags[..n] + [tags[n]] == tags && cls[..n] + [cls[n]] == cls;
      assert Select([tags[n]], [cls[n]], c) == if cls[n] == c then [tags[n]] else [];
    }
  }

  lemma {:induction false} SelectAppend(a: seq<Tag>, ca: seq<TagClass>, b: seq<Tag>, cb: seq<TagClass>, c: TagClass)
    requires |ca| == |a| && |cb| == |b|
    ensures Select(a + b, ca + cb, c) == Select(a, ca, c) + Select(b, cb, c)
    decreases |a|
  {
    if a == [] {
      assert a + b == b && ca + cb == cb;
    } else {
      var x, y := a + b, ca + cb;
      var head := if ca[0] == c then [a[0]] else [];
      assert x[0] == a[0] && y[0] == ca[0];
      assert x[1..] == a[1..] + b && y[1..] == ca[1..] + cb;
      assert Select(x, y, c) == head + Select(x[1..], y[1..], c);
      SelectAppend(a[1..], ca[1..], b, cb, c);
      assert Select(a, ca, c) == head + Select(a[1..], ca[1..], c);
      SeqAssoc(head, Select(a[1..], ca[1..], c), Select(b, cb, c));
    }
  }

  lemma SelectTriple(ts: seq<Tag>, cls: seq<TagClass>, c: TagClass)
    requires |ts| == 3 && |cls| == 3
    ensures Select(ts, cls, c)
            == (if cls[0] == c then [ts[0]] else []) + (if cls[1] == c then [ts[1]] else [])
               + (if cls[2] == c then [ts[2]] else [])
  {
    var t1, c1 := ts[1..], cls[1..];
    var t2, c2 := t1[1..], c1[1..];
    assert t1[0] == ts[1] && c1[0] == cls[1] && t2[0] == ts[2] && c2[0] == cls[2];
    assert t2[1..] == [] && c2[1..] == [];
    assert Select(t2, c2, c) == (if cls[2] == c then [ts[2]] else []) + Select(t2[1..], c2[1..], c);
    assert Select(t1, c1, c) == (if cls[1] == c then [ts[1]] else []) + Select(t2, c2, c);
  }

  /** The tags of class `c` among the twelve, three at a time. */
  lemma MixedSelect(ts: seq<Tag>, cls: seq<TagClass>, c: TagClass)
    requires |ts| == 12 && |cls| == 12
    ensures Select(ts, cls, c)
            == Select(ts[..3], cls[..3], c) + Select(ts[3..6], cls[3..6], c)
               + Select(ts[6..9], cls[6..9], c) + Select(ts[9..], cls[9..], c)
  {
    assert ts == ts[..3] + ts[3..6] + ts[6..9] + ts[9..];
    assert cls == cls[..3] + cls[3..6] + cls[6..9] + cls[9..];
    SelectAppend(ts[..3] + ts[3..6] + ts[6..9], cls[..3] + cls[3..6] + cls[6..9], ts[9..], cls[9..], c);
    SelectAppend(ts[..3] + ts[3..6], cls[..3] + cls[3..6], ts[6..9], cls[6..9], c);
    SelectAppend(ts[..3], cls[..3], ts[3..6], cls[3..6], c);
  }

  lemma MixedClassesFixed(ts: seq<Tag>, cls: seq<TagClass>)
    requires ts == MixedTags() && cls == MixedClasses()
    ensures forall i | 0 <= i < |ts| :: Classify(MixedRules, ts[i].name) == cls[i]
  {
    forall i | 0 <= i < |ts|
      ensures Classify(MixedRules, ts[i].name) == cls[i]
    {
      MixedClassAt(i);
    }
  }

  lemma SelectChunks(ts: seq<Tag>, cls: seq<TagClass>, c: TagClass)
    requires |ts| == 12 && |cls| == 12
    ensures Select(ts[..3], cls[..3], c) == (if cls[0] == c then [ts[0]] else []) + (if cls[1] == c then [ts[1]] else []) + (if cls[2] == c then [ts[2]] else [])
    ensures Select(ts[3..6], cls[3..6], c) == (if cls[3] == c then [ts[3]] else []) + (if cls[4] == c then [ts[4]] else []) + (if cls[5] == c then [ts[5]] else [])
    ensures Select(ts[6..9], cls[6..9], c) == (if cls[6] == c then [ts[6]] else []) + (if cls[7] == c then [ts[7]] else []) + (if cls[8] == c then [ts[8]] else [])
    ensures Select(ts[9..], cls[9..], c) == (if cls[9] == c then [ts[9]] else []) + (if cls[10] == c then [ts[10]] else []) + (if cls[11] == c then [ts[11]] else [])
  {
    SelectTriple(ts[..3], cls[..3], c);
    SelectTriple(ts[3..6], cls[3..6], c);
    SelectTriple(ts[6..9], cls[6..9], c);
    SelectTriple(ts[9..], cls[9..], c);
  }

  lemma MixedOfClass(ts: seq<Tag>, cls: seq<TagClass>, c: TagClass)
    requires ts == MixedTags() && cls == MixedClasses()
    ensures OfClass(MixedRules, ts, c) == Select(ts, cls, c)
  {
    MixedClassesFixed(ts, cls);
    OfClassByClasses(MixedRules, ts, cls, c);
  }

  lemma MixedSelectVersion(ts: seq<Tag>, cls: seq<TagClass>)
    requires |ts| == 12 && cls == MixedClasses()
    ensures Select(ts, cls, VersionTagClass) == [ts[0], ts[1], ts[2], ts[8], ts[10]]
  {
    MixedSelect(ts, cls, VersionTagClass);
    SelectChunks(ts, cls, VersionTagClass);
  }

  lemma MixedSelectInvalid(ts: seq<Tag>, cls: seq<TagClass>)
    requires |ts| == 12 && cls == MixedClasses()
    ensures Select(ts, cls, InvalidTagClass) == [ts[3], ts[4]]
  {
    MixedSelect(ts, cls, InvalidTagClass);
    SelectChunks(ts, cls, InvalidTagClass);
  }

  /**
   * The twelve-tag case: the version tags are the two "v" tags, the
   * prerelease read by the bare legacy format and the two "project-" tags.
   */
  lemma MixedVersionTags(ts: seq<Tag>)
    requires ts == MixedTags()
    ensures OfClass(MixedRules, ts, VersionTagClass) == [ts[0], ts[1], ts[2], ts[8], ts[10]]
  {
    var cls := MixedClasses();
    MixedOfClass(ts, cls, VersionTagClass);
    MixedSelectVersion(ts, cls);
  }

  /** ... and the two names that are neither version tags nor ignored get one warning each. */
  lemma MixedWarnings(ts: seq<Tag>)
    requires ts == MixedTags()
    ensures WarningsFor(OfClass(MixedRules, ts, InvalidTagClass))
            == [InvalidTagWarning("project-not-a-version"), InvalidTagWarning("not-a-version")]
  {
    var cls := MixedClasses();
    MixedOfClass(ts, cls, InvalidTagClass);
    MixedSelectInvalid(ts, cls);
    WarningsForPair(ts[3], ts[4]);
    assert ts[3].name == "project-not-a-version";
    assert ts[4].name == "not-a-version";
  }

  lemma WarningsForPair(a: Tag, b: Tag)
    ensures WarningsFor([a, b]) == [InvalidTagWarning(a.name), InvalidTagWarning(b.name)]
  {
    var w := WarningsFor([a, b]);
    assert |w| == 2 && w[0] == InvalidTagWarning(a.name) && w[1] == InvalidTagWarning(b.name);
  }

  lemma MixedVersionNames(ts: seq<Tag>)
    requires ts == MixedTags()
    ensures [ts[0].name, ts[1].name, ts[2].name, ts[8].name, ts[10].name]
            == ["v1.1.0", "v1.0.0", "1.0.0b2", "project-0.9.3", "project-0.9.2"]
  {
  }

  /** Run with warnings on, the policy keeps the five version tags and warns about the other two. */
  method MixedGetVersionTags(ts: seq<Tag>) returns (versionTags: seq<Tag>, warnings: seq<string>)
    requires ts == MixedTags()
    ensures versionTags == [ts[0], ts[1], ts[2], ts[8], ts[10]]
    ensures warnings == [InvalidTagWarning("project-not-a-version"), InvalidTagWarning("not-a-version")]
  {
    versionTags, warnings := GetVersionTags(MixedRules, ts, true);
    MixedVersionTags(ts);
    MixedWarnings(ts);
  }
}
