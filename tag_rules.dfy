/**
 * Tag classification: which repository tags name versions, which are to be
 * ignored, and which open a release in the changelog.
 *
 * A tag format is a template in which `$version` / `${version}`, `$major` /
 * `${major}`, `$minor` / `${minor}` and `$patch` / `${patch}` stand for the
 * version grammar or for one number; in an ignored-tag format `*` also stands
 * for any text. A name matches a format when the whole name matches it.
 */
module Tags {
  import opened Wrappers
  import opened Digits
  import opened Versions
  import opened Git

  // ------------------------------------------------------------ templates

  datatype Hole = VersionPart | MajorPart | MinorPart | PatchPart

  /** A compiled template: literal characters, the `*` wildcard and placeholders. */
  datatype Piece = Lit(c: char) | Star | Slot(h: Hole)

  /** The text one placeholder took in a match. */
  datatype Capture = Capture(h: Hole, text: string)

  predicate IsIdentChar(c: char) { 'a' <= c <= 'z' || 'A' <= c <= 'Z' || '0' <= c <= '9' || c == '_' }

  /** `name` starts `s` and is not the beginning of a longer identifier. */
  predicate StartsWithName(s: string, name: string)
  {
    HasPrefix(s, name) && (|s| == |name| || !IsIdentChar(s[|name|]))
  }

  /** The placeholder after a `$`, braced or bare, and the text after it. */
  function Placeholder(s: string): (r: Option<(Hole, string)>)
    ensures r.Some? ==> |r.value.1| < |s|
  {
    if HasPrefix(s, "{version}") then Some((VersionPart, s[9..]))
    else if HasPrefix(s, "{major}") then Some((MajorPart, s[7..]))
    else if HasPrefix(s, "{minor}") then Some((MinorPart, s[7..]))
    else if HasPrefix(s, "{patch}") then Some((PatchPart, s[7..]))
    else if StartsWithName(s, "version") then Some((VersionPart, s[7..]))
    else if StartsWithName(s, "major") then Some((MajorPart, s[5..]))
    else if StartsWithName(s, "minor") then Some((MinorPart, s[5..]))
    else if StartsWithName(s, "patch") then Some((PatchPart, s[5..]))
    else None
  }

  /**
   * Compiles a template; `wildcards` says whether `*` is the wildcard (ignored
   * formats) or a literal character (version formats). A `$` that introduces
   * no known placeholder is kept literally.
   */
  function Compile(t: string, wildcards: bool): seq<Piece>
    decreases |t|
  {
    if t == [] then []
    else if t[0] == '$' && Placeholder(t[1..]).Some? then
      [Slot(Placeholder(t[1..]).value.0)] + Compile(Placeholder(t[1..]).value.1, wildcards)
    else if t[0] == '*' && wildcards then [Star] + Compile(t[1..], wildcards)
    else [Lit(t[0])] + Compile(t[1..], wildcards)
  }

  /** The pieces of a text without placeholders or wildcards. */
  function Lits(t: string): (ps: seq<Piece>)
    ensures |ps| == |t|
  {
    if t == [] then [] else [Lit(t[0])] + Lits(t[1..])
  }

  /** Text with no `$` and no `*`, which compiles to itself. */
  predicate Plain(t: string) { forall i | 0 <= i < |t| :: t[i] != '$' && t[i] != '*' }

  // ------------------------------------------------------------- matching

  /** The version grammar accepts an optional leading "v", as PEP 440 does. */
  function WithoutV(t: string): string { if t != [] && t[0] == 'v' then t[1..] else t }

  predicate IsVersionText(t: string) { ParseVersion(WithoutV(t)).Success? }

  /** The texts one piece may take. */
  predicate Accepts(p: Piece, t: string)
  {
    match p
    case Lit(c) => t == [c]
    case Star => true
    case Slot(VersionPart) => IsVersionText(t)
    case Slot(_) => t != [] && AllDigits(t)
  }

  function CaptureOf(p: Piece, t: string): seq<Capture>
  {
    if p.Slot? then [Capture(p.h, t)] else []
  }

  /**
   * Whole-text match of the pieces against `s`; on success, the text each
   * placeholder took. A wildcard or placeholder tries the longest text first.
   */
  function Bind(ps: seq<Piece>, s: string): Option<seq<Capture>>
    decreases |ps|, 1, 0
  {
    if ps == [] then (if s == [] then Some([]) else None)
    else if ps[0].Lit? then
      (if s != [] && s[0] == ps[0].c then Bind(ps[1..], s[1..]) else None)
    else BindFrom(ps[0], ps[1..], s, |s|)
  }

  /** Lets `p` take `s[..k]`, then `s[..k - 1]`, and so on down to the empty text. */
  function BindFrom(p: Piece, rest: seq<Piece>, s: string, k: nat): Option<seq<Capture>>
    requires k <= |s|
    decreases |rest| + 1, 0, k
  {
    var tail := Bind(rest, s[k..]);
    if tail.Some? && Accepts(p, s[..k]) then Some(CaptureOf(p, s[..k]) + tail.value)
    else if k == 0 then None
    else BindFrom(p, rest, s, k - 1)
  }

  predicate Matches(ps: seq<Piece>, s: string) { Bind(ps, s).Some? }

  // ---------------------------------------------------- matching lemmas

  lemma {:induction false} CompilePlain(t: string, rest: string, wildcards: bool)
    requires Plain(t)
    ensures Compile(t + rest, wildcards) == Lits(t) + Compile(rest, wildcards)
    decreases |t|
  {
    if t != [] {
      var s := t + rest;
      assert s[0] == t[0] && t[0] != '$' && t[0] != '*';
      assert s[1..] == t[1..] + rest;
      assert Compile(s, wildcards) == [Lit(t[0])] + Compile(t[1..] + rest, wildcards);
      assert Plain(t[1..]) by {
        forall i | 0 <= i < |t[1..]| ensures t[1..][i] != '$' && t[1..][i] != '*' {
          assert t[1..][i] == t[i + 1];
        }
      }
      CompilePlain(t[1..], rest, wildcards);
      assert Lits(t) == [Lit(t[0])] + Lits(t[1..]);
    } else {
      assert t + rest == rest;
    }
  }

  /** Literal text matches exactly its own characters. */
  lemma {:induction false} BindLits(t: string, ps: seq<Piece>, s: string)
    ensures Bind(Lits(t) + ps, s) == if HasPrefix(s, t) then Bind(ps, s[|t|..]) else None
    decreases |t|
  {
    if t == [] {
      assert Lits(t) + ps == ps;
    } else {
      var qs := Lits(t) + ps;
      assert qs[0] == Lit(t[0]);
      assert qs[1..] == Lits(t[1..]) + ps;
      if s != [] && s[0] == t[0] {
        BindLits(t[1..], ps, s[1..]);
        assert HasPrefix(s, t) == HasPrefix(s[1..], t[1..]) by {
          if HasPrefix(s[1..], t[1..]) {
            assert s[..|t|] == [s[0]] + s[1..][..|t| - 1];
            assert t == [t[0]] + t[1..];
          }
          if HasPrefix(s, t) {
            assert s[1..][..|t| - 1] == s[..|t|][1..];
          }
        }
        if HasPrefix(s, t) {
          assert s[1..][|t| - 1..] == s[|t|..];
        }
      } else {
        assert !HasPrefix(s, t) by {
          if |t| <= |s| { assert s[..|t|][0] == s[0]; }
        }
      }
    }
  }

  lemma {:induction false} BindFromShort(p: Piece, s: string, k: nat)
    requires k < |s|
    ensures BindFrom(p, [], s, k) == None
    decreases k
  {
    assert s[k..] != [];
    if k > 0 {
      BindFromShort(p, s, k - 1);
    }
  }

  /** A wildcard or placeholder at the end takes all of the remaining text. */
  lemma BindLast(p: Piece, s: string)
    requires !p.Lit?
    ensures Bind([p], s) == if Accepts(p, s) then Some(CaptureOf(p, s)) else None
  {
    assert [p][1..] == [];
    assert s[|s|..] == [] && s[..|s|] == s;
    assert Bind([p], s) == BindFrom(p, [], s, |s|);
    assert Bind([], s[|s|..]) == Some([]);
    assert CaptureOf(p, s) + [] == CaptureOf(p, s);
    if !Accepts(p, s) && |s| > 0 {
      BindFromShort(p, s, |s| - 1);
    }
  }

  /** Any split that works makes the search succeed. */
  lemma {:induction false} BindFromWitness(p: Piece, rest: seq<Piece>, s: string, k: nat, k0: nat)
    requires k <= k0 <= |s|
    requires Accepts(p, s[..k]) && Bind(rest, s[k..]).Some?
    ensures BindFrom(p, rest, s, k0).Some?
    decreases k0
  {
    if k0 > k && !(Bind(rest, s[k0..]).Some? && Accepts(p, s[..k0])) {
      BindFromWitness(p, rest, s, k, k0 - 1);
    }
  }

  /** A successful search found a split that works. */
  lemma {:induction false} BindFromSplit(p: Piece, rest: seq<Piece>, s: string, k0: nat) returns (k: nat)
    requires k0 <= |s| && BindFrom(p, rest, s, k0).Some?
    ensures k <= k0 && Accepts(p, s[..k]) && Bind(rest, s[k..]).Some?
    decreases k0
  {
    if Bind(rest, s[k0..]).Some? && Accepts(p, s[..k0]) {
      k := k0;
    } else {
      k := BindFromSplit(p, rest, s, k0 - 1);
    }
  }

  lemma BindSplit(p: Piece, rest: seq<Piece>, s: string) returns (k: nat)
    requires !p.Lit? && Bind([p] + rest, s).Some?
    ensures k <= |s| && Accepts(p, s[..k]) && Bind(rest, s[k..]).Some?
  {
    assert ([p] + rest)[1..] == rest;
    k := BindFromSplit(p, rest, s, |s|);
  }

  lemma BindSplitWitness(p: Piece, rest: seq<Piece>, s: string, k: nat)
    requires !p.Lit? && k <= |s| && Accepts(p, s[..k]) && Bind(rest, s[k..]).Some?
    ensures Bind([p] + rest, s).Some?
  {
    assert ([p] + rest)[1..] == rest;
    BindFromWitness(p, rest, s, k, |s|);
  }

  /** Every literal character of a matching pattern occurs in the text. */
  lemma {:induction false} LitOccurs(ps: seq<Piece>, s: string, c: char)
    requires Bind(ps, s).Some? && Lit(c) in ps
    ensures c in s
    decreases |ps|
  {
    assert ps == [ps[0]] + ps[1..];
    if ps[0].Lit? {
      if ps[0] != Lit(c) {
        LitOccurs(ps[1..], s[1..], c);
      }
    } else {
      var k := BindSplit(ps[0], ps[1..], s);
      LitOccurs(ps[1..], s[k..], c);
    }
  }

  /** A literal first piece consumes the first character. */
  lemma BindLitHead(c: char, rest: seq<Piece>, s: string)
    requires Bind([Lit(c)] + rest, s).Some?
    ensures s != [] && s[0] == c && Bind(rest, s[1..]).Some?
  {
    var qs := [Lit(c)] + rest;
    assert qs[0] == Lit(c) && qs[1..] == rest;
  }

  /** A number placeholder followed by a non-digit literal takes exactly the leading digit run. */
  lemma NumberBeforeLit(h: Hole, c: char, rest: seq<Piece>, s: string)
    requires h != VersionPart && !IsDigit(c)
    requires Bind([Slot(h), Lit(c)] + rest, s).Some?
    ensures DigitRun(s) < |s| && s[DigitRun(s)] == c && Bind(rest, s[DigitRun(s) + 1..]).Some?
  {
    var k := SlotThenLit(h, c, rest, s);
    DigitRunBefore(s, k, c);
  }

  /** Where a number placeholder and a literal match, the number takes digits and the literal follows. */
  lemma SlotThenLit(h: Hole, c: char, rest: seq<Piece>, s: string) returns (k: nat)
    requires h != VersionPart
    requires Bind([Slot(h), Lit(c)] + rest, s).Some?
    ensures k < |s| && AllDigits(s[..k]) && s[k] == c && Bind(rest, s[k + 1..]).Some?
  {
    var qs := [Lit(c)] + rest;
    assert [Slot(h), Lit(c)] + rest == [Slot(h)] + qs;
    k := BindSplit(Slot(h), qs, s);
    var t := s[k..];
    BindLitHead(c, rest, t);
    assert t[1..] == s[k + 1..];
  }

  /** A digit run ends where a non-digit follows it. */
  lemma DigitRunBefore(s: string, k: nat, c: char)
    requires k < |s| && AllDigits(s[..k]) && s[k] == c && !IsDigit(c)
    ensures DigitRun(s) == k
  {
    assert s[..k] + s[k..] == s;
    assert s[k..][0] == c;
    DigitRunOfDigits(s[..k], s[k..]);
  }

  lemma CompileVersion(wildcards: bool)
    ensures Compile("$version", wildcards) == [Slot(VersionPart)]
  {
    var s := "version";
    assert StartsWithName(s, "version");
    assert Placeholder(s) == Some((VersionPart, ""));
  }

  lemma CompileBracedVersion(wildcards: bool)
    ensures Compile("${version}", wildcards) == [Slot(VersionPart)]
  {
    assert HasPrefix("{version}", "{version}");
    assert Placeholder("{version}") == Some((VersionPart, ""));
  }

  // ------------------------------------------------------------ tag rules

  /**
   * The tag policy: the current tag format, older formats still recognised,
   * formats of tags to ignore, and whether a pre-release tag is folded into
   * the next final release instead of opening its own.
   */
  datatype TagRules = TagRules(
    tagFormat: string,
    legacyFormats: seq<string>,
    ignoredFormats: seq<string>,
    mergePrereleases: bool)

  /** The rules when nothing is configured: a tag is a bare version. */
  const DefaultRules := TagRules("$version", [], [], false)

  function VersionFormats(rules: TagRules): seq<string> { [rules.tagFormat] + rules.legacyFormats }

  predicate MatchesFormat(format: string, name: string) { Matches(Compile(format, false), name) }

  predicate MatchesIgnoredFormat(format: string, name: string) { Matches(Compile(format, true), name) }

  predicate IsIgnoredTag(rules: TagRules, name: string)
  {
    exists i | 0 <= i < |rules.ignoredFormats| :: MatchesIgnoredFormat(rules.ignoredFormats[i], name)
  }

  /** The name matches the tag format or one of the legacy formats. */
  predicate MatchesVersionFormat(rules: TagRules, name: string)
  {
    exists i | 0 <= i < |VersionFormats(rules)| :: MatchesFormat(VersionFormats(rules)[i], name)
  }

  /** A version tag matches a version format and no ignored format: ignoring wins. */
  predicate IsVersionTag(rules: TagRules, name: string)
  {
    MatchesVersionFormat(rules, name) && !IsIgnoredTag(rules, name)
  }

  /** The first text the match bound to placeholder `h`. */
  function Captured(caps: seq<Capture>, h: Hole): (r: Option<string>)
    ensures r.Some? ==> Capture(h, r.value) in caps
    ensures r.None? ==> forall c | c in caps :: c.h != h
  {
    if caps == [] then None
    else if caps[0].h == h then Some(caps[0].text)
    else Captured(caps[1..], h)
  }

  /** The version a match spells: the version placeholder, or else major.minor.patch. */
  function CapturedVersionText(caps: seq<Capture>): Option<string>
  {
    match Captured(caps, VersionPart)
    case Some(t) => Some(t)
    case None =>
      if Captured(caps, MajorPart).Some? && Captured(caps, MinorPart).Some? && Captured(caps, PatchPart).Some? then
        Some(Captured(caps, MajorPart).value + "." + Captured(caps, MinorPart).value + "." + Captured(caps, PatchPart).value)
      else None
  }

  /** The version a tag name carries under the current tag format, if any. */
  function ExtractVersion(rules: TagRules, name: string): (r: Option<Version>)
    ensures r.Some? ==> MatchesFormat(rules.tagFormat, name) && WellFormed(r.value)
  {
    match Bind(Compile(rules.tagFormat, false), name)
    case None => None
    case Some(caps) =>
      match CapturedVersionText(caps)
      case None => None
      case Some(t) =>
        match ParseVersion(WithoutV(t))
        case Success(v) => Some(v)
        case Failure(_) => None
  }

  /** Only the current tag format counts here, and the name must read as a version. */
  predicate IncludeInChangelog(rules: TagRules, tag: Tag)
  {
    ExtractVersion(rules, tag.name).Some?
  }

  /** With mergePrereleases, a pre-release tag opens no release of its own. */
  predicate OpensRelease(rules: TagRules, tag: Tag)
  {
    IncludeInChangelog(rules, tag)
      && !(rules.mergePrereleases && IsPrerelease(ExtractVersion(rules, tag.name).value))
  }

  // ------------------------------------------------------ version tags

  datatype TagClass = VersionTagClass | IgnoredTagClass | InvalidTagClass

  function Classify(rules: TagRules, name: string): (c: TagClass)
    ensures c == VersionTagClass <==> IsVersionTag(rules, name)
    ensures c == IgnoredTagClass <==> IsIgnoredTag(rules, name)
  {
    if IsIgnoredTag(rules, name) then IgnoredTagClass
    else if MatchesVersionFormat(rules, name) then VersionTagClass
    else InvalidTagClass
  }

  /** The tags of one class, in their original order. */
  function OfClass(rules: TagRules, tags: seq<Tag>, c: TagClass): seq<Tag>
    decreases |tags|
  {
    if tags == [] then []
    else
      var last := tags[|tags| - 1];
      OfClass(rules, tags[..|tags| - 1], c) + (if Classify(rules, last.name) == c then [last] else [])
  }

  /** `OfClass` keeps exactly the tags of class `c`. */
  lemma {:induction false} OfClassMembers(rules: TagRules, tags: seq<Tag>, c: TagClass)
    ensures forall t | t in OfClass(rules, tags, c) :: t in tags && Classify(rules, t.name) == c
    ensures forall t | t in tags && Classify(rules, t.name) == c :: t in OfClass(rules, tags, c)
    decreases |tags|
  {
    if tags != [] {
      var init := tags[..|tags| - 1];
      OfClassMembers(rules, init, c);
      assert tags == init + [tags[|tags| - 1]];
    }
  }

  function InvalidTagWarning(name: string): string
  {
    "Invalid version tag: '" + name + "'"
  }

  /** One warning per tag, in order. */
  function WarningsFor(tags: seq<Tag>): (r: seq<string>)
    ensures |r| == |tags|
    ensures forall i | 0 <= i < |tags| :: r[i] == InvalidTagWarning(tags[i].name)
  {
    if tags == [] then [] else [InvalidTagWarning(tags[0].name)] + WarningsFor(tags[1..])
  }

  /**
   * Keeps the version tags in order; when `warn` is set, also reports each
   * tag that is neither a version tag nor ignored.
   */
  method GetVersionTags(rules: TagRules, tags: seq<Tag>, warn: bool) returns (versionTags: seq<Tag>, warnings: seq<string>)
    ensures versionTags == OfClass(rules, tags, VersionTagClass)
    ensures warnings == if warn then WarningsFor(OfClass(rules, tags, InvalidTagClass)) else []
  {
    versionTags := [];
    warnings := [];
    for i := 0 to |tags|
      invariant versionTags == OfClass(rules, tags[..i], VersionTagClass)
      invariant warnings == if warn then WarningsFor(OfClass(rules, tags[..i], InvalidTagClass)) else []
    {
      var name := tags[i].name;
      var isLegit := IsVersionTag(rules, name);
      OfClassStep(rules, tags, i, VersionTagClass);
      OfClassStep(rules, tags, i, InvalidTagClass);
      if warn && !isLegit && !IsIgnoredTag(rules, name) {
        WarningsForSnoc(OfClass(rules, tags[..i], InvalidTagClass), tags[i]);
        warnings := warnings + [InvalidTagWarning(name)];
      }
      if isLegit {
        versionTags := versionTags + [tags[i]];
      }
    }
    assert tags[..|tags|] == tags;
  }

  /** One more tag extends the tags of its class by itself and leaves the others. */
  lemma OfClassStep(rules: TagRules, tags: seq<Tag>, i: nat, c: TagClass)
    requires i < |tags|
    ensures OfClass(rules, tags[..i + 1], c)
         == OfClass(rules, tags[..i], c) + (if Classify(rules, tags[i].name) == c then [tags[i]] else [])
  {
    assert tags[..i + 1][..i] == tags[..i];
  }

  lemma WarningsForSnoc(ts: seq<Tag>, t: Tag)
    ensures WarningsFor(ts + [t]) == WarningsFor(ts) + [InvalidTagWarning(t.name)]
  {
  }

  /** Every tag is exactly one of: a version tag, an ignored tag, an invalid tag. */
  lemma {:induction false} ClassesPartition(rules: TagRules, tags: seq<Tag>)
    ensures |OfClass(rules, tags, VersionTagClass)| + |OfClass(rules, tags, IgnoredTagClass)|
            + |OfClass(rules, tags, InvalidTagClass)| == |tags|
    decreases |tags|
  {
    if tags != [] {
      ClassesPartition(rules, tags[..|tags| - 1]);
    }
  }

  // --------------------------------------------------- reading versions back

  lemma TextStartsWithDigit(v: Version)
    ensures Render(v) != [] && IsDigit(Render(v)[0])
    ensures Pep440Text(v) != [] && IsDigit(Pep440Text(v)[0])
  {
    var m := NatToString(v.major);
    assert Render(v)[0] == m[0];
    assert Pep440Text(v)[0] == m[0];
  }

  /** Text that, after an optional "v", does not start with a digit is no version. */
  lemma NotVersionText(t: string)
    requires WithoutV(t) == [] || !IsDigit(WithoutV(t)[0])
    ensures !IsVersionText(t)
  {
    assert ParseNat(WithoutV(t)).None?;
  }

  lemma CompileVersionFormat(prefix: string, hole: string, wildcards: bool)
    requires Plain(prefix) && (hole == "$version" || hole == "${version}")
    ensures Compile(prefix + hole, wildcards) == Lits(prefix) + [Slot(VersionPart)]
  {
    CompilePlain(prefix, hole, wildcards);
    if hole == "$version" { CompileVersion(wildcards); } else { CompileBracedVersion(wildcards); }
  }

  /** After a literal prefix, the version placeholder takes the rest of the name. */
  lemma BindPrefixedVersion(prefix: string, rest: string)
    ensures Bind(Lits(prefix) + [Slot(VersionPart)], prefix + rest)
            == if IsVersionText(rest) then Some([Capture(VersionPart, rest)]) else None
  {
    var name := prefix + rest;
    BindLits(prefix, [Slot(VersionPart)], name);
    assert name[..|prefix|] == prefix;
    assert name[|prefix|..] == rest;
    BindLast(Slot(VersionPart), rest);
  }

  /** An optional "v" and a version's text read back as the version. */
  lemma ReadVersionText(marker: string, text: string, v: Version)
    requires marker == "" || marker == "v"
    requires WellFormed(v) && (text == Render(v) || text == Pep440Text(v))
    ensures WithoutV(marker + text) == text && ParseVersion(text) == Success(v)
  {
    TextStartsWithDigit(v);
    if marker == "v" { assert (marker + text)[1..] == text; } else { assert marker + text == text; }
    if text == Render(v) { ParseRender(v); } else { ParsePep440Text(v); }
  }

  /**
   * A tag named by a plain prefix, an optional "v" and the text of a version
   * matches a `prefix$version` (or `prefix${version}`) format and reads back
   * as that version.
   */
  lemma SeqAssoc<T>(a: seq<T>, b: seq<T>, c: seq<T>)
    ensures (a + b) + c == a + (b + c)
  {
  }

  lemma NameOfVersion(rules: TagRules, prefix: string, hole: string, marker: string, text: string, v: Version)
    requires rules.tagFormat == prefix + hole && Plain(prefix)
    requires hole == "$version" || hole == "${version}"
    requires marker == "" || marker == "v"
    requires WellFormed(v) && (text == Render(v) || text == Pep440Text(v))
    ensures MatchesFormat(rules.tagFormat, prefix + marker + text)
    ensures ExtractVersion(rules, prefix + marker + text) == Some(v)
  {
    CompileVersionFormat(prefix, hole, false);
    var rest := marker + text;
    var name := prefix + marker + text;
    SeqAssoc(prefix, marker, text);
    ReadVersionText(marker, text, v);
    BindPrefixedVersion(prefix, rest);
    var caps := [Capture(VersionPart, rest)];
    assert Bind(Compile(rules.tagFormat, false), name) == Some(caps);
    assert Captured(caps, VersionPart) == Some(rest);
    assert CapturedVersionText(caps) == Some(rest);
    assert ParseVersion(WithoutV(rest)) == Success(v);
  }
}
