/**
 * The SemVer bump tables, case by case: each case parses the current version,
 * bumps it and renders the result.
 */
module SemVerVectors {
  import opened Wrappers
  import opened Digits
  import opened Versions
  import opened SemVer

  /** A bump of a version's text, given the version behind the text and the bumped version. */
  lemma BumpOfParsed(text: string, v: Version, inc: Option<Increment>, prerelease: Option<PreKind>, offset: nat,
                     devrelease: Option<nat>, isLocal: bool, exact: bool, r: Version, expected: string)
    requires ParseVersion(text) == Success(v)
    requires Bump(v, inc, prerelease, offset, devrelease, isLocal, exact) == Success(r)
    requires Render(r) == expected
    ensures BumpText(text, inc, prerelease, offset, devrelease, isLocal, exact) == Success(expected)
  {
  }

  lemma BumpOfText(text: string, v: Version, inc: Option<Increment>, prerelease: Option<PreKind>, offset: nat,
                   devrelease: Option<nat>, isLocal: bool, exact: bool, r: Version, expected: string)
    requires WellFormed(v) && (text == Render(v) || text == Pep440Text(v))
    requires Bump(v, inc, prerelease, offset, devrelease, isLocal, exact) == Success(r)
    requires Render(r) == expected
    ensures BumpText(text, inc, prerelease, offset, devrelease, isLocal, exact) == Success(expected)
  {
    if text == Render(v) { ParseRender(v); } else { ParsePep440Text(v); }
  }

  /** A local bump of a version's text, given the version behind its local label. */
  lemma LocalBumpOfText(text: string, v: Version, lv: Version, inc: Option<Increment>, expected: string)
    requires WellFormed(v) && text == Render(v)
    requires WellFormed(lv) && v.local == Some(Render(lv))
    requires Render(v.(local := Some(Render(BumpPublic(lv, inc, None, 0, None, false))))) == expected
    ensures BumpText(text, inc, None, 0, None, true, false) == Success(expected)
  {
    ParseRender(v);
    ParseRender(lv);
  }

  // Inputs outside both normal forms, read step by step.

  lemma ReadsOne()
    ensures ParseVersion("1") == Success(Version(1, 0, 0, None, None, None))
  {
    ParseVersionOfParts("1", 1, 0, 0, "", None, "", None, "", None);
  }

  lemma ReadsOneOne()
    ensures ParseVersion("1.1") == Success(Version(1, 1, 0, None, None, None))
  {
    ParseVersionOfParts("1.1", 1, 1, 0, "", None, "", None, "", None);
  }

  lemma ReadsOneAlphaZero()
    ensures ParseVersion("1a0") == Success(Version(1, 0, 0, Some(Pre(Alpha, 0)), None, None))
  {
    ParseSpelledPhase("a", Alpha, 0, "");
    assert "a" + (NatToString(0) + "") == "a0";
    ParseShortRelease(1, "a0");
    assert NatToString(1) + "a0" == "1a0";
    ParseVersionOfParts("1a0", 1, 0, 0, "a0", Some(Pre(Alpha, 0)), "", None, "", None);
  }

  lemma ReadsOneBeta()
    ensures ParseVersion("1beta") == Success(Version(1, 0, 0, Some(Pre(Beta, 0)), None, None))
  {
    ParseUnnumberedPhase("beta", Beta, "");
    assert "beta" + "" == "beta";
    ParseShortRelease(1, "beta");
    assert NatToString(1) + "beta" == "1beta";
    ParseVersionOfParts("1beta", 1, 0, 0, "beta", Some(Pre(Beta, 0)), "", None, "", None);
  }

  lemma ReadsSpelledAlpha()
    ensures ParseVersion("1.0.0alpha1") == Success(Version(1, 0, 0, Some(Pre(Alpha, 1)), None, None))
  {
    assert "1.0.0alpha1" == ReleaseText(1, 0, 0) + ("alpha" + NatToString(1));
    ParseSpelledVersion(1, 0, 0, "alpha", Alpha, 1);
    ParsePep440Text(Version(1, 0, 0, Some(Pre(Alpha, 1)), None, None));
  }

  lemma ReadsSeparatedSpelledAlpha()
    ensures ParseVersion("1.0.0-alpha1") == Success(Version(1, 0, 0, Some(Pre(Alpha, 1)), None, None))
  {
    assert "1.0.0-alpha1" == ReleaseText(1, 0, 0) + (['-'] + ("alpha" + NatToString(1)));
    ParseSeparatedSpelledVersion(1, 0, 0, '-', "alpha", Alpha, 1);
    ParsePep440Text(Version(1, 0, 0, Some(Pre(Alpha, 1)), None, None));
  }

  lemma ReadsSpelledBeta()
    ensures ParseVersion("1.0.0beta1") == Success(Version(1, 0, 0, Some(Pre(Beta, 1)), None, None))
  {
    assert "1.0.0beta1" == ReleaseText(1, 0, 0) + ("beta" + NatToString(1));
    ParseSpelledVersion(1, 0, 0, "beta", Beta, 1);
    ParsePep440Text(Version(1, 0, 0, Some(Pre(Beta, 1)), None, None));
  }

  lemma SimpleFlowRow00()
    ensures BumpText("0.1.0", Some(Patch), None, 0, None, false, false) == Success("0.1.1")
  {
    BumpOfText("0.1.0", Version(0, 1, 0, None, None, None),
      Some(Patch), None, 0, None, false, false,
      Version(0, 1, 1, None, None, None), "0.1.1");
  }

  lemma SimpleFlowRow01()
    ensures BumpText("0.1.0", Some(Patch), None, 0, Some(1), false, false) == Success("0.1.1-dev1")
  {
    BumpOfText("0.1.0", Version(0, 1, 0, None, None, None),
      Some(Patch), None, 0, Some(1), false, false,
      Version(0, 1, 1, None, Some(1), None), "0.1.1-dev1");
  }

  lemma SimpleFlowRow02()
    ensures BumpText("0.1.1", Some(Minor), None, 0, None, false, false) == Success("0.2.0")
  {
    BumpOfText("0.1.1", Version(0, 1, 1, None, None, None),
      Some(Minor), None, 0, None, false, false,
      Version(0, 2, 0, None, None, None), "0.2.0");
  }

  lemma SimpleFlowRow03()
    ensures BumpText("0.2.0", Some(Minor), None, 0, None, false, false) == Success("0.3.0")
  {
    BumpOfText("0.2.0", Version(0, 2, 0, None, None, None),
      Some(Minor), None, 0, None, false, false,
      Version(0, 3, 0, None, None, None), "0.3.0");
  }

  lemma SimpleFlowRow04()
    ensures BumpText("0.2.0", Some(Minor), None, 0, Some(1), false, false) == Success("0.3.0-dev1")
  {
    BumpOfText("0.2.0", Version(0, 2, 0, None, None, None),
      Some(Minor), None, 0, Some(1), false, false,
      Version(0, 3, 0, None, Some(1), None), "0.3.0-dev1");
  }

  lemma SimpleFlowRow05()
    ensures BumpText("0.3.0", Some(Patch), None, 0, None, false, false) == Success("0.3.1")
  {
    BumpOfText("0.3.0", Version(0, 3, 0, None, None, None),
      Some(Patch), None, 0, None, false, false,
      Version(0, 3, 1, None, None, None), "0.3.1");
  }

  lemma SimpleFlowRow06()
    ensures BumpText("0.3.0", Some(Patch), Some(Alpha), 0, None, false, false) == Success("0.3.1-a0")
  {
    BumpOfText("0.3.0", Version(0, 3, 0, None, None, None),
      Some(Patch), Some(Alpha), 0, None, false, false,
      Version(0, 3, 1, Some(Pre(Alpha, 0)), None, None), "0.3.1-a0");
  }

  lemma SimpleFlowRow07()
    ensures BumpText("0.3.1a0", None, Some(Alpha), 0, None, false, false) == Success("0.3.1-a1")
  {
    BumpOfText("0.3.1a0", Version(0, 3, 1, Some(Pre(Alpha, 0)), None, None),
      None, Some(Alpha), 0, None, false, false,
      Version(0, 3, 1, Some(Pre(Alpha, 1)), None, None), "0.3.1-a1");
  }

  lemma SimpleFlowRow08()
    ensures BumpText("0.3.0", Some(Patch), Some(Alpha), 1, None, false, false) == Success("0.3.1-a1")
  {
    BumpOfText("0.3.0", Version(0, 3, 0, None, None, None),
      Some(Patch), Some(Alpha), 1, None, false, false,
      Version(0, 3, 1, Some(Pre(Alpha, 1)), None, None), "0.3.1-a1");
  }

  lemma SimpleFlowRow09()
    ensures BumpText("0.3.1a0", None, Some(Alpha), 1, None, false, false) == Success("0.3.1-a1")
  {
    BumpOfText("0.3.1a0", Version(0, 3, 1, Some(Pre(Alpha, 0)), None, None),
      None, Some(Alpha), 1, None, false, false,
      Version(0, 3, 1, Some(Pre(Alpha, 1)), None, None), "0.3.1-a1");
  }

  lemma SimpleFlowRow10()
    ensures BumpText("0.3.1a0", None, None, 0, None, false, false) == Success("0.3.1")
  {
    BumpOfText("0.3.1a0", Version(0, 3, 1, Some(Pre(Alpha, 0)), None, None),
      None, None, 0, None, false, false,
      Version(0, 3, 1, None, None, None), "0.3.1");
  }

  lemma SimpleFlowRow11()
    ensures BumpText("0.3.1", Some(Patch), None, 0, None, false, false) == Success("0.3.2")
  {
    BumpOfText("0.3.1", Version(0, 3, 1, None, None, None),
      Some(Patch), None, 0, None, false, false,
      Version(0, 3, 2, None, None, None), "0.3.2");
  }

  lemma SimpleFlowRow12()
    ensures BumpText("0.4.2", Some(Major), Some(Alpha), 0, None, false, false) == Success("1.0.0-a0")
  {
    BumpOfText("0.4.2", Version(0, 4, 2, None, None, None),
      Some(Major), Some(Alpha), 0, None, false, false,
      Version(1, 0, 0, Some(Pre(Alpha, 0)), None, None), "1.0.0-a0");
  }

  lemma SimpleFlowRow13()
    ensures BumpText("1.0.0a0", None, Some(Alpha), 0, None, false, false) == Success("1.0.0-a1")
  {
    BumpOfText("1.0.0a0", Version(1, 0, 0, Some(Pre(Alpha, 0)), None, None),
      None, Some(Alpha), 0, None, false, false,
      Version(1, 0, 0, Some(Pre(Alpha, 1)), None, None), "1.0.0-a1");
  }

  lemma SimpleFlowRow14()
    ensures BumpText("1.0.0a1", None, Some(Alpha), 0, None, false, false) == Success("1.0.0-a2")
  {
    BumpOfText("1.0.0a1", Version(1, 0, 0, Some(Pre(Alpha, 1)), None, None),
      None, Some(Alpha), 0, None, false, false,
      Version(1, 0, 0, Some(Pre(Alpha, 2)), None, None), "1.0.0-a2");
  }

  lemma SimpleFlowRow15()
    ensures BumpText("1.0.0a1", None, Some(Alpha), 0, Some(1), false, false) == Success("1.0.0-a2-dev1")
  {
    SimpleFlowRow15Bump();
    BumpOfText("1.0.0a1", Version(1, 0, 0, Some(Pre(Alpha, 1)), None, None),
      None, Some(Alpha), 0, Some(1), false, false,
      Version(1, 0, 0, Some(Pre(Alpha, 2)), Some(1), None), "1.0.0-a2-dev1");
  }

  lemma SimpleFlowRow15Bump()
    ensures Bump(Version(1, 0, 0, Some(Pre(Alpha, 1)), None, None), None, Some(Alpha), 0, Some(1), false, false) == Success(Version(1, 0, 0, Some(Pre(Alpha, 2)), Some(1), None))
  {
  }

  lemma SimpleFlowRow16()
    ensures BumpText("1.0.0a2.dev0", None, Some(Alpha), 0, Some(1), false, false) == Success("1.0.0-a3-dev1")
  {
    SimpleFlowRow16Bump();
    BumpOfText("1.0.0a2.dev0", Version(1, 0, 0, Some(Pre(Alpha, 2)), Some(0), None),
      None, Some(Alpha), 0, Some(1), false, false,
      Version(1, 0, 0, Some(Pre(Alpha, 3)), Some(1), None), "1.0.0-a3-dev1");
  }

  lemma SimpleFlowRow16Bump()
    ensures Bump(Version(1, 0, 0, Some(Pre(Alpha, 2)), Some(0), None), None, Some(Alpha), 0, Some(1), false, false) == Success(Version(1, 0, 0, Some(Pre(Alpha, 3)), Some(1), None))
  {
  }

  lemma SimpleFlowRow17()
    ensures BumpText("1.0.0a2.dev0", None, Some(Alpha), 0, Some(0), false, false) == Success("1.0.0-a3-dev0")
  {
    SimpleFlowRow17Bump();
    BumpOfText("1.0.0a2.dev0", Version(1, 0, 0, Some(Pre(Alpha, 2)), Some(0), None),
      None, Some(Alpha), 0, Some(0), false, false,
      Version(1, 0, 0, Some(Pre(Alpha, 3)), Some(0), None), "1.0.0-a3-dev0");
  }

  lemma SimpleFlowRow17Bump()
    ensures Bump(Version(1, 0, 0, Some(Pre(Alpha, 2)), Some(0), None), None, Some(Alpha), 0, Some(0), false, false) == Success(Version(1, 0, 0, Some(Pre(Alpha, 3)), Some(0), None))
  {
  }

  lemma SimpleFlowRow18()
    ensures BumpText("1.0.0a1", None, Some(Beta), 0, None, false, false) == Success("1.0.0-b0")
  {
    BumpOfText("1.0.0a1", Version(1, 0, 0, Some(Pre(Alpha, 1)), None, None),
      None, Some(Beta), 0, None, false, false,
      Version(1, 0, 0, Some(Pre(Beta, 0)), None, None), "1.0.0-b0");
  }

  lemma SimpleFlowRow19()
    ensures BumpText("1.0.0b0", None, Some(Beta), 0, None, false, false) == Success("1.0.0-b1")
  {
    BumpOfText("1.0.0b0", Version(1, 0, 0, Some(Pre(Beta, 0)), None, None),
      None, Some(Beta), 0, None, false, false,
      Version(1, 0, 0, Some(Pre(Beta, 1)), None, None), "1.0.0-b1");
  }

  lemma SimpleFlowRow20()
    ensures BumpText("1.0.0b1", None, Some(Rc), 0, None, false, false) == Success("1.0.0-rc0")
  {
    BumpOfText("1.0.0b1", Version(1, 0, 0, Some(Pre(Beta, 1)), None, None),
      None, Some(Rc), 0, None, false, false,
      Version(1, 0, 0, Some(Pre(Rc, 0)), None, None), "1.0.0-rc0");
  }

  lemma SimpleFlowRow21()
    ensures BumpText("1.0.0rc0", None, Some(Rc), 0, None, false, false) == Success("1.0.0-rc1")
  {
    SimpleFlowRow21Bump();
    BumpOfText("1.0.0rc0", Version(1, 0, 0, Some(Pre(Rc, 0)), None, None),
      None, Some(Rc), 0, None, false, false,
      Version(1, 0, 0, Some(Pre(Rc, 1)), None, None), "1.0.0-rc1");
  }

  lemma SimpleFlowRow21Bump()
    ensures Bump(Version(1, 0, 0, Some(Pre(Rc, 0)), None, None), None, Some(Rc), 0, None, false, false) == Success(Version(1, 0, 0, Some(Pre(Rc, 1)), None, None))
  {
  }

  lemma SimpleFlowRow22()
    ensures BumpText("1.0.0rc0", None, Some(Rc), 0, Some(1), false, false) == Success("1.0.0-rc1-dev1")
  {
    SimpleFlowRow22Bump();
    BumpOfText("1.0.0rc0", Version(1, 0, 0, Some(Pre(Rc, 0)), None, None),
      None, Some(Rc), 0, Some(1), false, false,
      Version(1, 0, 0, Some(Pre(Rc, 1)), Some(1), None), "1.0.0-rc1-dev1");
  }

  lemma SimpleFlowRow22Bump()
    ensures Bump(Version(1, 0, 0, Some(Pre(Rc, 0)), None, None), None, Some(Rc), 0, Some(1), false, false) == Success(Version(1, 0, 0, Some(Pre(Rc, 1)), Some(1), None))
  {
  }

  lemma SimpleFlowRow23()
    ensures BumpText("1.0.0rc0", Some(Patch), None, 0, None, false, false) == Success("1.0.0")
  {
    BumpOfText("1.0.0rc0", Version(1, 0, 0, Some(Pre(Rc, 0)), None, None),
      Some(Patch), None, 0, None, false, false,
      Version(1, 0, 0, None, None, None), "1.0.0");
  }

  lemma SimpleFlowRow24()
    ensures BumpText("1.0.0a3.dev0", None, Some(Beta), 0, None, false, false) == Success("1.0.0-b0")
  {
    SimpleFlowRow24Bump();
    BumpOfText("1.0.0a3.dev0", Version(1, 0, 0, Some(Pre(Alpha, 3)), Some(0), None),
      None, Some(Beta), 0, None, false, false,
      Version(1, 0, 0, Some(Pre(Beta, 0)), None, None), "1.0.0-b0");
  }

  lemma SimpleFlowRow24Bump()
    ensures Bump(Version(1, 0, 0, Some(Pre(Alpha, 3)), Some(0), None), None, Some(Beta), 0, None, false, false) == Success(Version(1, 0, 0, Some(Pre(Beta, 0)), None, None))
  {
  }

  lemma SimpleFlowRow25()
    ensures BumpText("1.0.0", Some(Patch), None, 0, None, false, false) == Success("1.0.1")
  {
    BumpOfText("1.0.0", Version(1, 0, 0, None, None, None),
      Some(Patch), None, 0, None, false, false,
      Version(1, 0, 1, None, None, None), "1.0.1");
  }

  lemma SimpleFlowRow26()
    ensures BumpText("1.0.1", Some(Patch), None, 0, None, false, false) == Success("1.0.2")
  {
    BumpOfText("1.0.1", Version(1, 0, 1, None, None, None),
      Some(Patch), None, 0, None, false, false,
      Version(1, 0, 2, None, None, None), "1.0.2");
  }

  lemma SimpleFlowRow27()
    ensures BumpText("1.0.2", Some(Minor), None, 0, None, false, false) == Success("1.1.0")
  {
    BumpOfText("1.0.2", Version(1, 0, 2, None, None, None),
      Some(Minor), None, 0, None, false, false,
      Version(1, 1, 0, None, None, None), "1.1.0");
  }

  lemma SimpleFlowRow28()
    ensures BumpText("1.1.0", Some(Minor), None, 0, None, false, false) == Success("1.2.0")
  {
    BumpOfText("1.1.0", Version(1, 1, 0, None, None, None),
      Some(Minor), None, 0, None, false, false,
      Version(1, 2, 0, None, None, None), "1.2.0");
  }

  lemma SimpleFlowRow29()
    ensures BumpText("1.2.0", Some(Patch), None, 0, None, false, false) == Success("1.2.1")
  {
    BumpOfText("1.2.0", Version(1, 2, 0, None, None, None),
      Some(Patch), None, 0, None, false, false,
      Version(1, 2, 1, None, None, None), "1.2.1");
  }

  lemma SimpleFlowRow30()
    ensures BumpText("1.2.1", Some(Major), None, 0, None, false, false) == Success("2.0.0")
  {
    BumpOfText("1.2.1", Version(1, 2, 1, None, None, None),
      Some(Major), None, 0, None, false, false,
      Version(2, 0, 0, None, None, None), "2.0.0");
  }

  /** The simple-flow table: plain bumps, entering and advancing phases, development releases, finalising. */
  lemma SimpleFlowVectors()
    ensures BumpText("0.1.0", Some(Patch), None, 0, None, false, false) == Success("0.1.1")
    ensures BumpText("0.1.0", Some(Patch), None, 0, Some(1), false, false) == Success("0.1.1-dev1")
    ensures BumpText("0.1.1", Some(Minor), None, 0, None, false, false) == Success("0.2.0")
    ensures BumpText("0.2.0", Some(Minor), None, 0, None, false, false) == Success("0.3.0")
    ensures BumpText("0.2.0", Some(Minor), None, 0, Some(1), false, false) == Success("0.3.0-dev1")
    ensures BumpText("0.3.0", Some(Patch), None, 0, None, false, false) == Success("0.3.1")
    ensures BumpText("0.3.0", Some(Patch), Some(Alpha), 0, None, false, false) == Success("0.3.1-a0")
    ensures BumpText("0.3.1a0", None, Some(Alpha), 0, None, false, false) == Success("0.3.1-a1")
    ensures BumpText("0.3.0", Some(Patch), Some(Alpha), 1, None, false, false) == Success("0.3.1-a1")
    ensures BumpText("0.3.1a0", None, Some(Alpha), 1, None, false, false) == Success("0.3.1-a1")
    ensures BumpText("0.3.1a0", None, None, 0, None, false, false) == Success("0.3.1")
    ensures BumpText("0.3.1", Some(Patch), None, 0, None, false, false) == Success("0.3.2")
    ensures BumpText("0.4.2", Some(Major), Some(Alpha), 0, None, false, false) == Success("1.0.0-a0")
    ensures BumpText("1.0.0a0", None, Some(Alpha), 0, None, false, false) == Success("1.0.0-a1")
    ensures BumpText("1.0.0a1", None, Some(Alpha), 0, None, false, false) == Success("1.0.0-a2")
    ensures BumpText("1.0.0a1", None, Some(Alpha), 0, Some(1), false, false) == Success("1.0.0-a2-dev1")
    ensures BumpText("1.0.0a2.dev0", None, Some(Alpha), 0, Some(1), false, false) == Success("1.0.0-a3-dev1")
    ensures BumpText("1.0.0a2.dev0", None, Some(Alpha), 0, Some(0), false, false) == Success("1.0.0-a3-dev0")
    ensures BumpText("1.0.0a1", None, Some(Beta), 0, None, false, false) == Success("1.0.0-b0")
    ensures BumpText("1.0.0b0", None, Some(Beta), 0, None, false, false) == Success("1.0.0-b1")
    ensures BumpText("1.0.0b1", None, Some(Rc), 0, None, false, false) == Success("1.0.0-rc0")
    ensures BumpText("1.0.0rc0", None, Some(Rc), 0, None, false, false) == Success("1.0.0-rc1")
    ensures BumpText("1.0.0rc0", None, Some(Rc), 0, Some(1), false, false) == Success("1.0.0-rc1-dev1")
    ensures BumpText("1.0.0rc0", Some(Patch), None, 0, None, false, false) == Success("1.0.0")
    ensures BumpText("1.0.0a3.dev0", None, Some(Beta), 0, None, false, false) == Success("1.0.0-b0")
    ensures BumpText("1.0.0", Some(Patch), None, 0, None, false, false) == Success("1.0.1")
    ensures BumpText("1.0.1", Some(Patch), None, 0, None, false, false) == Success("1.0.2")
    ensures BumpText("1.0.2", Some(Minor), None, 0, None, false, false) == Success("1.1.0")
    ensures BumpText("1.1.0", Some(Minor), None, 0, None, false, false) == Success("1.2.0")
    ensures BumpText("1.2.0", Some(Patch), None, 0, None, false, false) == Success("1.2.1")
    ensures BumpText("1.2.1", Some(Major), None, 0, None, false, false) == Success("2.0.0")
  {
    SimpleFlowRow00();
    SimpleFlowRow01();
    SimpleFlowRow02();
    SimpleFlowRow03();
    SimpleFlowRow04();
    SimpleFlowRow05();
    SimpleFlowRow06();
    SimpleFlowRow07();
    SimpleFlowRow08();
    SimpleFlowRow09();
    SimpleFlowRow10();
    SimpleFlowRow11();
    SimpleFlowRow12();
    SimpleFlowRow13();
    SimpleFlowRow14();
    SimpleFlowRow15();
    SimpleFlowRow16();
    SimpleFlowRow17();
    SimpleFlowRow18();
    SimpleFlowRow19();
    SimpleFlowRow20();
    SimpleFlowRow21();
    SimpleFlowRow22();
    SimpleFlowRow23();
    SimpleFlowRow24();
    SimpleFlowRow25();
    SimpleFlowRow26();
    SimpleFlowRow27();
    SimpleFlowRow28();
    SimpleFlowRow29();
    SimpleFlowRow30();
  }

  lemma LocalVersionsRow00()
    ensures BumpText("4.5.0+0.1.0", Some(Patch), None, 0, None, true, false) == Success("4.5.0+0.1.1")
  {
    LocalRow00Plain();
    LocalRow00Labelled();
    LocalRow00Bump();
    LocalBumpOfText("4.5.0+0.1.0", Version(4, 5, 0, None, None, Some("0.1.0")), Version(0, 1, 0, None, None, None), Some(Patch), "4.5.0+0.1.1");
  }

  lemma LocalRow00Plain()
    ensures Render(Version(0, 1, 0, None, None, None)) == "0.1.0"
    ensures Render(Version(0, 1, 1, None, None, None)) == "0.1.1"
  {
    RenderOfParts(Version(0, 1, 0, None, None, None), "0", "1", "0");
    RenderOfParts(Version(0, 1, 1, None, None, None), "0", "1", "1");
  }

  lemma LocalRow00Labelled()
    ensures Render(Version(4, 5, 0, None, None, Some("0.1.0"))) == "4.5.0+0.1.0"
    ensures Render(Version(4, 5, 0, None, None, Some("0.1.1"))) == "4.5.0+0.1.1"
  {
    RenderOfParts(Version(4, 5, 0, None, None, Some("0.1.0")), "4", "5", "0");
    RenderOfParts(Version(4, 5, 0, None, None, Some("0.1.1")), "4", "5", "0");
  }

  lemma LocalRow00Bump()
    ensures BumpPublic(Version(0, 1, 0, None, None, None), Some(Patch), None, 0, None, false) == Version(0, 1, 1, None, None, None)
  {
  }

  lemma LocalVersionsRow01()
    ensures BumpText("4.5.0+0.1.1", Some(Minor), None, 0, None, true, false) == Success("4.5.0+0.2.0")
  {
    LocalRow01Plain();
    LocalRow01Labelled();
    LocalRow01Bump();
    LocalBumpOfText("4.5.0+0.1.1", Version(4, 5, 0, None, None, Some("0.1.1")), Version(0, 1, 1, None, None, None), Some(Minor), "4.5.0+0.2.0");
  }

  lemma LocalRow01Plain()
    ensures Render(Version(0, 1, 1, None, None, None)) == "0.1.1"
    ensures Render(Version(0, 2, 0, None, None, None)) == "0.2.0"
  {
    RenderOfParts(Version(0, 1, 1, None, None, None), "0", "1", "1");
    RenderOfParts(Version(0, 2, 0, None, None, None), "0", "2", "0");
  }

  lemma LocalRow01Labelled()
    ensures Render(Version(4, 5, 0, None, None, Some("0.1.1"))) == "4.5.0+0.1.1"
    ensures Render(Version(4, 5, 0, None, None, Some("0.2.0"))) == "4.5.0+0.2.0"
  {
    RenderOfParts(Version(4, 5, 0, None, None, Some("0.1.1")), "4", "5", "0");
    RenderOfParts(Version(4, 5, 0, None, None, Some("0.2.0")), "4", "5", "0");
  }

  lemma LocalRow01Bump()
    ensures BumpPublic(Version(0, 1, 1, None, None, None), Some(Minor), None, 0, None, false) == Version(0, 2, 0, None, None, None)
  {
  }

  lemma LocalVersionsRow02()
    ensures BumpText("4.5.0+0.2.0", Some(Major), None, 0, None, true, false) == Success("4.5.0+1.0.0")
  {
    LocalRow02Plain();
    LocalRow02Labelled();
    LocalRow02Bump();
    LocalBumpOfText("4.5.0+0.2.0", Version(4, 5, 0, None, None, Some("0.2.0")), Version(0, 2, 0, None, None, None), Some(Major), "4.5.0+1.0.0");
  }

  lemma LocalRow02Plain()
    ensures Render(Version(0, 2, 0, None, None, None)) == "0.2.0"
    ensures Render(Version(1, 0, 0, None, None, None)) == "1.0.0"
  {
    RenderOfParts(Version(0, 2, 0, None, None, None), "0", "2", "0");
    RenderOfParts(Version(1, 0, 0, None, None, None), "1", "0", "0");
  }

  lemma LocalRow02Labelled()
    ensures Render(Version(4, 5, 0, None, None, Some("0.2.0"))) == "4.5.0+0.2.0"
    ensures Render(Version(4, 5, 0, None, None, Some("1.0.0"))) == "4.5.0+1.0.0"
  {
    RenderOfParts(Version(4, 5, 0, None, None, Some("0.2.0")), "4", "5", "0");
    RenderOfParts(Version(4, 5, 0, None, None, Some("1.0.0")), "4", "5", "0");
  }

  lemma LocalRow02Bump()
    ensures BumpPublic(Version(0, 2, 0, None, None, None), Some(Major), None, 0, None, false) == Version(1, 0, 0, None, None, None)
  {
  }

  /** The local-version table: only the local label is bumped. */
  lemma LocalVersionsVectors()
    ensures BumpText("4.5.0+0.1.0", Some(Patch), None, 0, None, true, false) == Success("4.5.0+0.1.1")
    ensures BumpText("4.5.0+0.1.1", Some(Minor), None, 0, None, true, false) == Success("4.5.0+0.2.0")
    ensures BumpText("4.5.0+0.2.0", Some(Major), None, 0, None, true, false) == Success("4.5.0+1.0.0")
  {
    LocalVersionsRow00();
    LocalVersionsRow01();
    LocalVersionsRow02();
  }

  lemma LinearPrereleaseRow00()
    ensures BumpText("0.1.1b1", None, Some(Alpha), 0, None, false, false) == Success("0.1.1-b2")
  {
    BumpOfText("0.1.1b1", Version(0, 1, 1, Some(Pre(Beta, 1)), None, None),
      None, Some(Alpha), 0, None, false, false,
      Version(0, 1, 1, Some(Pre(Beta, 2)), None, None), "0.1.1-b2");
  }

  lemma LinearPrereleaseRow01()
    ensures BumpText("0.1.1rc0", None, Some(Alpha), 0, None, false, false) == Success("0.1.1-rc1")
  {
    BumpOfText("0.1.1rc0", Version(0, 1, 1, Some(Pre(Rc, 0)), None, None),
      None, Some(Alpha), 0, None, false, false,
      Version(0, 1, 1, Some(Pre(Rc, 1)), None, None), "0.1.1-rc1");
  }

  lemma LinearPrereleaseRow02()
    ensures BumpText("0.1.1rc0", None, Some(Beta), 0, None, false, false) == Success("0.1.1-rc1")
  {
    LinearPrereleaseRow02Bump();
    BumpOfText("0.1.1rc0", Version(0, 1, 1, Some(Pre(Rc, 0)), None, None),
      None, Some(Beta), 0, None, false, false,
      Version(0, 1, 1, Some(Pre(Rc, 1)), None, None), "0.1.1-rc1");
  }

  lemma LinearPrereleaseRow02Bump()
    ensures Bump(Version(0, 1, 1, Some(Pre(Rc, 0)), None, None), None, Some(Beta), 0, None, false, false) == Success(Version(0, 1, 1, Some(Pre(Rc, 1)), None, None))
  {
  }

  /** A pre-release never moves back to an earlier phase. */
  lemma LinearPrereleaseVectors()
    ensures BumpText("0.1.1b1", None, Some(Alpha), 0, None, false, false) == Success("0.1.1-b2")
    ensures BumpText("0.1.1rc0", None, Some(Alpha), 0, None, false, false) == Success("0.1.1-rc1")
    ensures BumpText("0.1.1rc0", None, Some(Beta), 0, None, false, false) == Success("0.1.1-rc1")
  {
    LinearPrereleaseRow00();
    LinearPrereleaseRow01();
    LinearPrereleaseRow02();
  }

  lemma WeirdRow00()
    ensures BumpText("1.1", Some(Patch), None, 0, None, false, false) == Success("1.1.1")
  {
    assert Bump(Version(1, 1, 0, None, None, None), Some(Patch), None, 0, None, false, false) == Success(Version(1, 1, 1, None, None, None));
    assert Render(Version(1, 1, 1, None, None, None)) == "1.1.1";
    ReadsOneOne();
    BumpOfParsed("1.1", Version(1, 1, 0, None, None, None),
      Some(Patch), None, 0, None, false, false,
      Version(1, 1, 1, None, None, None), "1.1.1");
  }

  lemma WeirdRow01()
    ensures BumpText("1", Some(Minor), None, 0, None, false, false) == Success("1.1.0")
  {
    assert Bump(Version(1, 0, 0, None, None, None), Some(Minor), None, 0, None, false, false) == Success(Version(1, 1, 0, None, None, None));
    assert Render(Version(1, 1, 0, None, None, None)) == "1.1.0";
    ReadsOne();
    BumpOfParsed("1", Version(1, 0, 0, None, None, None),
      Some(Minor), None, 0, None, false, false,
      Version(1, 1, 0, None, None, None), "1.1.0");
  }

  lemma WeirdRow02()
    ensures BumpText("1", Some(Major), None, 0, None, false, false) == Success("2.0.0")
  {
    assert Bump(Version(1, 0, 0, None, None, None), Some(Major), None, 0, None, false, false) == Success(Version(2, 0, 0, None, None, None));
    assert Render(Version(2, 0, 0, None, None, None)) == "2.0.0";
    ReadsOne();
    BumpOfParsed("1", Version(1, 0, 0, None, None, None),
      Some(Major), None, 0, None, false, false,
      Version(2, 0, 0, None, None, None), "2.0.0");
  }

  lemma WeirdRow03()
    ensures BumpText("1a0", None, Some(Alpha), 0, None, false, false) == Success("1.0.0-a1")
  {
    assert Bump(Version(1, 0, 0, Some(Pre(Alpha, 0)), None, None), None, Some(Alpha), 0, None, false, false) == Success(Version(1, 0, 0, Some(Pre(Alpha, 1)), None, None));
    assert Render(Version(1, 0, 0, Some(Pre(Alpha, 1)), None, None)) == "1.0.0-a1";
    ReadsOneAlphaZero();
    BumpOfParsed("1a0", Version(1, 0, 0, Some(Pre(Alpha, 0)), None, None),
      None, Some(Alpha), 0, None, false, false,
      Version(1, 0, 0, Some(Pre(Alpha, 1)), None, None), "1.0.0-a1");
  }

  lemma WeirdRow04()
    ensures BumpText("1a0", None, Some(Alpha), 1, None, false, false) == Success("1.0.0-a1")
  {
    assert Bump(Version(1, 0, 0, Some(Pre(Alpha, 0)), None, None), None, Some(Alpha), 1, None, false, false) == Success(Version(1, 0, 0, Some(Pre(Alpha, 1)), None, None));
    assert Render(Version(1, 0, 0, Some(Pre(Alpha, 1)), None, None)) == "1.0.0-a1";
    ReadsOneAlphaZero();
    BumpOfParsed("1a0", Version(1, 0, 0, Some(Pre(Alpha, 0)), None, None),
      None, Some(Alpha), 1, None, false, false,
      Version(1, 0, 0, Some(Pre(Alpha, 1)), None, None), "1.0.0-a1");
  }

  lemma WeirdRow05()
    ensures BumpText("1", None, Some(Beta), 0, None, false, false) == Success("1.0.0-b0")
  {
    assert Bump(Version(1, 0, 0, None, None, None), None, Some(Beta), 0, None, false, false) == Success(Version(1, 0, 0, Some(Pre(Beta, 0)), None, None));
    assert Render(Version(1, 0, 0, Some(Pre(Beta, 0)), None, None)) == "1.0.0-b0";
    ReadsOne();
    BumpOfParsed("1", Version(1, 0, 0, None, None, None),
      None, Some(Beta), 0, None, false, false,
      Version(1, 0, 0, Some(Pre(Beta, 0)), None, None), "1.0.0-b0");
  }

  lemma WeirdRow06()
    ensures BumpText("1", None, Some(Beta), 1, None, false, false) == Success("1.0.0-b1")
  {
    assert Bump(Version(1, 0, 0, None, None, None), None, Some(Beta), 1, None, false, false) == Success(Version(1, 0, 0, Some(Pre(Beta, 1)), None, None));
    assert Render(Version(1, 0, 0, Some(Pre(Beta, 1)), None, None)) == "1.0.0-b1";
    ReadsOne();
    BumpOfParsed("1", Version(1, 0, 0, None, None, None),
      None, Some(Beta), 1, None, false, false,
      Version(1, 0, 0, Some(Pre(Beta, 1)), None, None), "1.0.0-b1");
  }

  lemma WeirdRow07()
    ensures BumpText("1beta", None, Some(Beta), 0, None, false, false) == Success("1.0.0-b1")
  {
    assert Bump(Version(1, 0, 0, Some(Pre(Beta, 0)), None, None), None, Some(Beta), 0, None, false, false) == Success(Version(1, 0, 0, Some(Pre(Beta, 1)), None, None));
    assert Render(Version(1, 0, 0, Some(Pre(Beta, 1)), None, None)) == "1.0.0-b1";
    ReadsOneBeta();
    BumpOfParsed("1beta", Version(1, 0, 0, Some(Pre(Beta, 0)), None, None),
      None, Some(Beta), 0, None, false, false,
      Version(1, 0, 0, Some(Pre(Beta, 1)), None, None), "1.0.0-b1");
  }

  lemma WeirdRow08()
    ensures BumpText("1.0.0alpha1", None, Some(Alpha), 0, None, false, false) == Success("1.0.0-a2")
  {
    assert Bump(Version(1, 0, 0, Some(Pre(Alpha, 1)), None, None), None, Some(Alpha), 0, None, false, false) == Success(Version(1, 0, 0, Some(Pre(Alpha, 2)), None, None));
    assert Render(Version(1, 0, 0, Some(Pre(Alpha, 2)), None, None)) == "1.0.0-a2";
    ReadsSpelledAlpha();
    BumpOfParsed("1.0.0alpha1", Version(1, 0, 0, Some(Pre(Alpha, 1)), None, None),
      None, Some(Alpha), 0, None, false, false,
      Version(1, 0, 0, Some(Pre(Alpha, 2)), None, None), "1.0.0-a2");
  }

  lemma WeirdRow09()
    ensures BumpText("1", None, Some(Rc), 0, None, false, false) == Success("1.0.0-rc0")
  {
    assert Bump(Version(1, 0, 0, None, None, None), None, Some(Rc), 0, None, false, false) == Success(Version(1, 0, 0, Some(Pre(Rc, 0)), None, None));
    assert Render(Version(1, 0, 0, Some(Pre(Rc, 0)), None, None)) == "1.0.0-rc0";
    ReadsOne();
    BumpOfParsed("1", Version(1, 0, 0, None, None, None),
      None, Some(Rc), 0, None, false, false,
      Version(1, 0, 0, Some(Pre(Rc, 0)), None, None), "1.0.0-rc0");
  }

  lemma WeirdRow10()
    ensures BumpText("1.0.0rc1+e20d7b57f3eb", Some(Patch), None, 0, None, false, false) == Success("1.0.0")
  {
    WeirdRow10Bump();
    WeirdRow10Text();
    BumpOfText("1.0.0rc1+e20d7b57f3eb", Version(1, 0, 0, Some(Pre(Rc, 1)), None, Some("e20d7b57f3eb")),
      Some(Patch), None, 0, None, false, false,
      Version(1, 0, 0, None, None, None), "1.0.0");
  }

  lemma WeirdRow10Text()
    ensures Pep440Text(Version(1, 0, 0, Some(Pre(Rc, 1)), None, Some("e20d7b57f3eb"))) == "1.0.0rc1+e20d7b57f3eb"
  {
    var v := Version(1, 0, 0, Some(Pre(Rc, 1)), None, Some("e20d7b57f3eb"));
    assert ReleaseText(1, 0, 0) == "1.0.0";
    assert Pep440PreText(v.pre) == "rc1";
    assert LocalText(v.local) == "+e20d7b57f3eb";
    Pep440OfParts(v, "1.0.0", "rc1", "+e20d7b57f3eb");
    WeirdRow10Joined();
  }

  lemma WeirdRow10Joined()
    ensures "1.0.0" + "rc1" + "+e20d7b57f3eb" == "1.0.0rc1+e20d7b57f3eb"
  {
  }

  lemma WeirdRow10Bump()
    ensures Bump(Version(1, 0, 0, Some(Pre(Rc, 1)), None, Some("e20d7b57f3eb")), Some(Patch), None, 0, None, false, false) == Success(Version(1, 0, 0, None, None, None))
  {
  }

  /** Short releases, spelled-out phases and a local label dropped by a public bump. */
  lemma WeirdVectors()
    ensures BumpText("1.1", Some(Patch), None, 0, None, false, false) == Success("1.1.1")
    ensures BumpText("1", Some(Minor), None, 0, None, false, false) == Success("1.1.0")
    ensures BumpText("1", Some(Major), None, 0, None, false, false) == Success("2.0.0")
    ensures BumpText("1a0", None, Some(Alpha), 0, None, false, false) == Success("1.0.0-a1")
    ensures BumpText("1a0", None, Some(Alpha), 1, None, false, false) == Success("1.0.0-a1")
    ensures BumpText("1", None, Some(Beta), 0, None, false, false) == Success("1.0.0-b0")
    ensures BumpText("1", None, Some(Beta), 1, None, false, false) == Success("1.0.0-b1")
    ensures BumpText("1beta", None, Some(Beta), 0, None, false, false) == Success("1.0.0-b1")
    ensures BumpText("1.0.0alpha1", None, Some(Alpha), 0, None, false, false) == Success("1.0.0-a2")
    ensures BumpText("1", None, Some(Rc), 0, None, false, false) == Success("1.0.0-rc0")
    ensures BumpText("1.0.0rc1+e20d7b57f3eb", Some(Patch), None, 0, None, false, false) == Success("1.0.0")
  {
    WeirdRow00();
    WeirdRow01();
    WeirdRow02();
    WeirdRow03();
    WeirdRow04();
    WeirdRow05();
    WeirdRow06();
    WeirdRow07();
    WeirdRow08();
    WeirdRow09();
    WeirdRow10();
  }

  lemma TddRow00()
    ensures BumpText("0.1.1", Some(Patch), None, 0, None, false, false) == Success("0.1.2")
  {
    BumpOfText("0.1.1", Version(0, 1, 1, None, None, None),
      Some(Patch), None, 0, None, false, false,
      Version(0, 1, 2, None, None, None), "0.1.2");
  }

  lemma TddRow01()
    ensures BumpText("0.1.1", Some(Minor), None, 0, None, false, false) == Success("0.2.0")
  {
    BumpOfText("0.1.1", Version(0, 1, 1, None, None, None),
      Some(Minor), None, 0, None, false, false,
      Version(0, 2, 0, None, None, None), "0.2.0");
  }

  lemma TddRow02()
    ensures BumpText("2.1.1", Some(Major), None, 0, None, false, false) == Success("3.0.0")
  {
    BumpOfText("2.1.1", Version(2, 1, 1, None, None, None),
      Some(Major), None, 0, None, false, false,
      Version(3, 0, 0, None, None, None), "3.0.0");
  }

  lemma TddRow03()
    ensures BumpText("0.9.0", Some(Patch), Some(Alpha), 0, None, false, false) == Success("0.9.1-a0")
  {
    BumpOfText("0.9.0", Version(0, 9, 0, None, None, None),
      Some(Patch), Some(Alpha), 0, None, false, false,
      Version(0, 9, 1, Some(Pre(Alpha, 0)), None, None), "0.9.1-a0");
  }

  lemma TddRow04()
    ensures BumpText("0.9.0", Some(Minor), Some(Alpha), 0, None, false, false) == Success("0.10.0-a0")
  {
    BumpOfText("0.9.0", Version(0, 9, 0, None, None, None),
      Some(Minor), Some(Alpha), 0, None, false, false,
      Version(0, 10, 0, Some(Pre(Alpha, 0)), None, None), "0.10.0-a0");
  }

  lemma TddRow05()
    ensures BumpText("0.9.0", Some(Major), Some(Alpha), 0, None, false, false) == Success("1.0.0-a0")
  {
    BumpOfText("0.9.0", Version(0, 9, 0, None, None, None),
      Some(Major), Some(Alpha), 0, None, false, false,
      Version(1, 0, 0, Some(Pre(Alpha, 0)), None, None), "1.0.0-a0");
  }

  lemma TddRow06()
    ensures BumpText("0.9.0", Some(Major), Some(Alpha), 1, None, false, false) == Success("1.0.0-a1")
  {
    BumpOfText("0.9.0", Version(0, 9, 0, None, None, None),
      Some(Major), Some(Alpha), 1, None, false, false,
      Version(1, 0, 0, Some(Pre(Alpha, 1)), None, None), "1.0.0-a1");
  }

  lemma TddRow07()
    ensures BumpText("1.0.0a2", None, Some(Beta), 0, None, false, false) == Success("1.0.0-b0")
  {
    BumpOfText("1.0.0a2", Version(1, 0, 0, Some(Pre(Alpha, 2)), None, None),
      None, Some(Beta), 0, None, false, false,
      Version(1, 0, 0, Some(Pre(Beta, 0)), None, None), "1.0.0-b0");
  }

  lemma TddRow08()
    ensures BumpText("1.0.0a2", None, Some(Beta), 1, None, false, false) == Success("1.0.0-b1")
  {
    BumpOfText("1.0.0a2", Version(1, 0, 0, Some(Pre(Alpha, 2)), None, None),
      None, Some(Beta), 1, None, false, false,
      Version(1, 0, 0, Some(Pre(Beta, 1)), None, None), "1.0.0-b1");
  }

  lemma TddRow09()
    ensures BumpText("1.0.0beta1", None, Some(Rc), 0, None, false, false) == Success("1.0.0-rc0")
  {
    assert Bump(Version(1, 0, 0, Some(Pre(Beta, 1)), None, None), None, Some(Rc), 0, None, false, false) == Success(Version(1, 0, 0, Some(Pre(Rc, 0)), None, None));
    assert Render(Version(1, 0, 0, Some(Pre(Rc, 0)), None, None)) == "1.0.0-rc0";
    ReadsSpelledBeta();
    BumpOfParsed("1.0.0beta1", Version(1, 0, 0, Some(Pre(Beta, 1)), None, None),
      None, Some(Rc), 0, None, false, false,
      Version(1, 0, 0, Some(Pre(Rc, 0)), None, None), "1.0.0-rc0");
  }

  lemma TddRow10()
    ensures BumpText("1.0.0rc1", None, Some(Rc), 0, None, false, false) == Success("1.0.0-rc2")
  {
    BumpOfText("1.0.0rc1", Version(1, 0, 0, Some(Pre(Rc, 1)), None, None),
      None, Some(Rc), 0, None, false, false,
      Version(1, 0, 0, Some(Pre(Rc, 2)), None, None), "1.0.0-rc2");
  }

  lemma TddRow11()
    ensures BumpText("1.0.0-a0", None, Some(Rc), 0, None, false, false) == Success("1.0.0-rc0")
  {
    TddRow11Bump();
    BumpOfText("1.0.0-a0", Version(1, 0, 0, Some(Pre(Alpha, 0)), None, None),
      None, Some(Rc), 0, None, false, false,
      Version(1, 0, 0, Some(Pre(Rc, 0)), None, None), "1.0.0-rc0");
  }

  lemma TddRow11Bump()
    ensures Bump(Version(1, 0, 0, Some(Pre(Alpha, 0)), None, None), None, Some(Rc), 0, None, false, false) == Success(Version(1, 0, 0, Some(Pre(Rc, 0)), None, None))
  {
  }

  lemma TddRow12()
    ensures BumpText("1.0.0-alpha1", None, Some(Alpha), 0, None, false, false) == Success("1.0.0-a2")
  {
    assert Bump(Version(1, 0, 0, Some(Pre(Alpha, 1)), None, None), None, Some(Alpha), 0, None, false, false) == Success(Version(1, 0, 0, Some(Pre(Alpha, 2)), None, None));
    assert Render(Version(1, 0, 0, Some(Pre(Alpha, 2)), None, None)) == "1.0.0-a2";
    ReadsSeparatedSpelledAlpha();
    BumpOfParsed("1.0.0-alpha1", Version(1, 0, 0, Some(Pre(Alpha, 1)), None, None),
      None, Some(Alpha), 0, None, false, false,
      Version(1, 0, 0, Some(Pre(Alpha, 2)), None, None), "1.0.0-a2");
  }

  /** The test-driven table. */
  lemma TddVectors()
    ensures BumpText("0.1.1", Some(Patch), None, 0, None, false, false) == Success("0.1.2")
    ensures BumpText("0.1.1", Some(Minor), None, 0, None, false, false) == Success("0.2.0")
    ensures BumpText("2.1.1", Some(Major), None, 0, None, false, false) == Success("3.0.0")
    ensures BumpText("0.9.0", Some(Patch), Some(Alpha), 0, None, false, false) == Success("0.9.1-a0")
    ensures BumpText("0.9.0", Some(Minor), Some(Alpha), 0, None, false, false) == Success("0.10.0-a0")
    ensures BumpText("0.9.0", Some(Major), Some(Alpha), 0, None, false, false) == Success("1.0.0-a0")
    ensures BumpText("0.9.0", Some(Major), Some(Alpha), 1, None, false, false) == Success("1.0.0-a1")
    ensures BumpText("1.0.0a2", None, Some(Beta), 0, None, false, false) == Success("1.0.0-b0")
    ensures BumpText("1.0.0a2", None, Some(Beta), 1, None, false, false) == Success("1.0.0-b1")
    ensures BumpText("1.0.0beta1", None, Some(Rc), 0, None, false, false) == Success("1.0.0-rc0")
    ensures BumpText("1.0.0rc1", None, Some(Rc), 0, None, false, false) == Success("1.0.0-rc2")
    ensures BumpText("1.0.0-a0", None, Some(Rc), 0, None, false, false) == Success("1.0.0-rc0")
    ensures BumpText("1.0.0-alpha1", None, Some(Alpha), 0, None, false, false) == Success("1.0.0-a2")
  {
    TddRow00();
    TddRow01();
    TddRow02();
    TddRow03();
    TddRow04();
    TddRow05();
    TddRow06();
    TddRow07();
    TddRow08();
    TddRow09();
    TddRow10();
    TddRow11();
    TddRow12();
  }

  lemma ExactRow00()
    ensures BumpText("1.0.0", Some(Patch), None, 0, None, false, true) == Success("1.0.1")
  {
    BumpOfText("1.0.0", Version(1, 0, 0, None, None, None),
      Some(Patch), None, 0, None, false, true,
      Version(1, 0, 1, None, None, None), "1.0.1");
  }

  lemma ExactRow01()
    ensures BumpText("1.0.0", Some(Minor), None, 0, None, false, true) == Success("1.1.0")
  {
    BumpOfText("1.0.0", Version(1, 0, 0, None, None, None),
      Some(Minor), None, 0, None, false, true,
      Version(1, 1, 0, None, None, None), "1.1.0");
  }

  lemma ExactRow02()
    ensures BumpText("1.0.0a1", Some(Patch), Some(Beta), 0, None, false, true) == Success("1.0.1-b0")
  {
    BumpOfText("1.0.0a1", Version(1, 0, 0, Some(Pre(Alpha, 1)), None, None),
      Some(Patch), Some(Beta), 0, None, false, true,
      Version(1, 0, 1, Some(Pre(Beta, 0)), None, None), "1.0.1-b0");
  }

  lemma ExactRow03()
    ensures BumpText("1.0.0b0", Some(Patch), Some(Beta), 0, None, false, true) == Success("1.0.1-b0")
  {
    BumpOfText("1.0.0b0", Version(1, 0, 0, Some(Pre(Beta, 0)), None, None),
      Some(Patch), Some(Beta), 0, None, false, true,
      Version(1, 0, 1, Some(Pre(Beta, 0)), None, None), "1.0.1-b0");
  }

  lemma ExactRow04()
    ensures BumpText("1.0.0b1", Some(Patch), Some(Rc), 0, None, false, true) == Success("1.0.1-rc0")
  {
    BumpOfText("1.0.0b1", Version(1, 0, 0, Some(Pre(Beta, 1)), None, None),
      Some(Patch), Some(Rc), 0, None, false, true,
      Version(1, 0, 1, Some(Pre(Rc, 0)), None, None), "1.0.1-rc0");
  }

  lemma ExactRow05()
    ensures BumpText("1.0.0rc0", Some(Patch), Some(Rc), 0, None, false, true) == Success("1.0.1-rc0")
  {
    BumpOfText("1.0.0rc0", Version(1, 0, 0, Some(Pre(Rc, 0)), None, None),
      Some(Patch), Some(Rc), 0, None, false, true,
      Version(1, 0, 1, Some(Pre(Rc, 0)), None, None), "1.0.1-rc0");
  }

  lemma ExactRow06()
    ensures BumpText("1.0.0rc0", Some(Patch), Some(Rc), 0, Some(1), false, true) == Success("1.0.1-rc0-dev1")
  {
    ExactRow06Bump();
    BumpOfText("1.0.0rc0", Version(1, 0, 0, Some(Pre(Rc, 0)), None, None),
      Some(Patch), Some(Rc), 0, Some(1), false, true,
      Version(1, 0, 1, Some(Pre(Rc, 0)), Some(1), None), "1.0.1-rc0-dev1");
  }

  lemma ExactRow06Bump()
    ensures Bump(Version(1, 0, 0, Some(Pre(Rc, 0)), None, None), Some(Patch), Some(Rc), 0, Some(1), false, true) == Success(Version(1, 0, 1, Some(Pre(Rc, 0)), Some(1), None))
  {
  }

  lemma ExactRow07()
    ensures BumpText("1.0.0a1", Some(Minor), Some(Beta), 0, None, false, true) == Success("1.1.0-b0")
  {
    BumpOfText("1.0.0a1", Version(1, 0, 0, Some(Pre(Alpha, 1)), None, None),
      Some(Minor), Some(Beta), 0, None, false, true,
      Version(1, 1, 0, Some(Pre(Beta, 0)), None, None), "1.1.0-b0");
  }

  lemma ExactRow08()
    ensures BumpText("1.0.0b0", Some(Minor), Some(Beta), 0, None, false, true) == Success("1.1.0-b0")
  {
    BumpOfText("1.0.0b0", Version(1, 0, 0, Some(Pre(Beta, 0)), None, None),
      Some(Minor), Some(Beta), 0, None, false, true,
      Version(1, 1, 0, Some(Pre(Beta, 0)), None, None), "1.1.0-b0");
  }

  lemma ExactRow09()
    ensures BumpText("1.0.0b1", Some(Minor), Some(Rc), 0, None, false, true) == Success("1.1.0-rc0")
  {
    BumpOfText("1.0.0b1", Version(1, 0, 0, Some(Pre(Beta, 1)), None, None),
      Some(Minor), Some(Rc), 0, None, false, true,
      Version(1, 1, 0, Some(Pre(Rc, 0)), None, None), "1.1.0-rc0");
  }

  lemma ExactRow10()
    ensures BumpText("1.0.0rc0", Some(Minor), Some(Rc), 0, None, false, true) == Success("1.1.0-rc0")
  {
    BumpOfText("1.0.0rc0", Version(1, 0, 0, Some(Pre(Rc, 0)), None, None),
      Some(Minor), Some(Rc), 0, None, false, true,
      Version(1, 1, 0, Some(Pre(Rc, 0)), None, None), "1.1.0-rc0");
  }

  lemma ExactRow11()
    ensures BumpText("1.0.0rc0", Some(Minor), Some(Rc), 0, Some(1), false, true) == Success("1.1.0-rc0-dev1")
  {
    ExactRow11Bump();
    BumpOfText("1.0.0rc0", Version(1, 0, 0, Some(Pre(Rc, 0)), None, None),
      Some(Minor), Some(Rc), 0, Some(1), false, true,
      Version(1, 1, 0, Some(Pre(Rc, 0)), Some(1), None), "1.1.0-rc0-dev1");
  }

  lemma ExactRow11Bump()
    ensures Bump(Version(1, 0, 0, Some(Pre(Rc, 0)), None, None), Some(Minor), Some(Rc), 0, Some(1), false, true) == Success(Version(1, 1, 0, Some(Pre(Rc, 0)), Some(1), None))
  {
  }

  lemma ExactRow12()
    ensures BumpText("2.0.0b0", Some(Major), None, 0, None, false, true) == Success("3.0.0")
  {
    BumpOfText("2.0.0b0", Version(2, 0, 0, Some(Pre(Beta, 0)), None, None),
      Some(Major), None, 0, None, false, true,
      Version(3, 0, 0, None, None, None), "3.0.0");
  }

  lemma ExactRow13()
    ensures BumpText("2.0.0b0", Some(Minor), None, 0, None, false, true) == Success("2.1.0")
  {
    BumpOfText("2.0.0b0", Version(2, 0, 0, Some(Pre(Beta, 0)), None, None),
      Some(Minor), None, 0, None, false, true,
      Version(2, 1, 0, None, None, None), "2.1.0");
  }

  lemma ExactRow14()
    ensures BumpText("2.0.0b0", Some(Patch), None, 0, None, false, true) == Success("2.0.1")
  {
    BumpOfText("2.0.0b0", Version(2, 0, 0, Some(Pre(Beta, 0)), None, None),
      Some(Patch), None, 0, None, false, true,
      Version(2, 0, 1, None, None, None), "2.0.1");
  }

  lemma ExactRow15()
    ensures BumpText("2.0.0b0", Some(Major), Some(Alpha), 0, None, false, true) == Success("3.0.0-a0")
  {
    BumpOfText("2.0.0b0", Version(2, 0, 0, Some(Pre(Beta, 0)), None, None),
      Some(Major), Some(Alpha), 0, None, false, true,
      Version(3, 0, 0, Some(Pre(Alpha, 0)), None, None), "3.0.0-a0");
  }

  lemma ExactRow16()
    ensures BumpText("2.0.0b0", Some(Minor), Some(Alpha), 0, None, false, true) == Success("2.1.0-a0")
  {
    BumpOfText("2.0.0b0", Version(2, 0, 0, Some(Pre(Beta, 0)), None, None),
      Some(Minor), Some(Alpha), 0, None, false, true,
      Version(2, 1, 0, Some(Pre(Alpha, 0)), None, None), "2.1.0-a0");
  }

  lemma ExactRow17()
    ensures BumpText("2.0.0b0", Some(Patch), Some(Alpha), 0, None, false, true) == Success("2.0.1-a0")
  {
    BumpOfText("2.0.0b0", Version(2, 0, 0, Some(Pre(Beta, 0)), None, None),
      Some(Patch), Some(Alpha), 0, None, false, true,
      Version(2, 0, 1, Some(Pre(Alpha, 0)), None, None), "2.0.1-a0");
  }

  /** Exact increments: the increment applies even to a pre-release. */
  lemma ExactVectors()
    ensures BumpText("1.0.0", Some(Patch), None, 0, None, false, true) == Success("1.0.1")
    ensures BumpText("1.0.0", Some(Minor), None, 0, None, false, true) == Success("1.1.0")
    ensures BumpText("1.0.0a1", Some(Patch), Some(Beta), 0, None, false, true) == Success("1.0.1-b0")
    ensures BumpText("1.0.0b0", Some(Patch), Some(Beta), 0, None, false, true) == Success("1.0.1-b0")
    ensures BumpText("1.0.0b1", Some(Patch), Some(Rc), 0, None, false, true) == Success("1.0.1-rc0")
    ensures BumpText("1.0.0rc0", Some(Patch), Some(Rc), 0, None, false, true) == Success("1.0.1-rc0")
    ensures BumpText("1.0.0rc0", Some(Patch), Some(Rc), 0, Some(1), false, true) == Success("1.0.1-rc0-dev1")
    ensures BumpText("1.0.0a1", Some(Minor), Some(Beta), 0, None, false, true) == Success("1.1.0-b0")
    ensures BumpText("1.0.0b0", Some(Minor), Some(Beta), 0, None, false, true) == Success("1.1.0-b0")
    ensures BumpText("1.0.0b1", Some(Minor), Some(Rc), 0, None, false, true) == Success("1.1.0-rc0")
    ensures BumpText("1.0.0rc0", Some(Minor), Some(Rc), 0, None, false, true) == Success("1.1.0-rc0")
    ensures BumpText("1.0.0rc0", Some(Minor), Some(Rc), 0, Some(1), false, true) == Success("1.1.0-rc0-dev1")
    ensures BumpText("2.0.0b0", Some(Major), None, 0, None, false, true) == Success("3.0.0")
    ensures BumpText("2.0.0b0", Some(Minor), None, 0, None, false, true) == Success("2.1.0")
    ensures BumpText("2.0.0b0", Some(Patch), None, 0, None, false, true) == Success("2.0.1")
    ensures BumpText("2.0.0b0", Some(Major), Some(Alpha), 0, None, false, true) == Success("3.0.0-a0")
    ensures BumpText("2.0.0b0", Some(Minor), Some(Alpha), 0, None, false, true) == Success("2.1.0-a0")
    ensures BumpText("2.0.0b0", Some(Patch), Some(Alpha), 0, None, false, true) == Success("2.0.1-a0")
  {
    ExactRow00();
    ExactRow01();
    ExactRow02();
    ExactRow03();
    ExactRow04();
    ExactRow05();
    ExactRow06();
    ExactRow07();
    ExactRow08();
    ExactRow09();
    ExactRow10();
    ExactRow11();
    ExactRow12();
    ExactRow13();
    ExactRow14();
    ExactRow15();
    ExactRow16();
    ExactRow17();
  }
}
