/**
 * The structured version used by the changelog and by the SemVer scheme:
 * a release triple, an optional pre-release phase with its number, an
 * optional development release and an optional local label.
 *
 * Text form accepted by ParseVersion (a subset of PEP 440): a release of one
 * to three dot-separated numbers (missing parts read as 0); then optionally a
 * pre-release phase spelled a|alpha, b|beta or rc|c|pre|preview, with an
 * optional separator from "-", "_", "." before it and before its number, the
 * number defaulting to 0; then optionally "dev" with the same separators and
 * default; then optionally "+" and a local label: dot-separated non-empty
 * runs of [a-z0-9].
 * Text form produced by Render (the SemVer 2.0.0 section 9 hyphenated style):
 *   X.Y.Z[-aN|-bN|-rcN][-devM][+local]
 */
module Versions {
  import opened Wrappers
  import opened Digits

  /** Pre-release phases: alpha, beta, release candidate. */
  datatype PreKind = Alpha | Beta | Rc

  function KindRank(k: PreKind): (r: nat)
    ensures 1 <= r <= 3
  {
    match k
    case Alpha => 1
    case Beta => 2
    case Rc => 3
  }

  /** The later of two phases; a pre-release never moves to an earlier phase. */
  function MaxKind(a: PreKind, b: PreKind): (m: PreKind)
    ensures m == a || m == b
    ensures KindRank(m) >= KindRank(a) && KindRank(m) >= KindRank(b)
  {
    if KindRank(a) >= KindRank(b) then a else b
  }

  function KindText(k: PreKind): string
  {
    match k
    case Alpha => "a"
    case Beta => "b"
    case Rc => "rc"
  }

  datatype Pre = Pre(kind: PreKind, number: nat)

  datatype Version = Version(
    major: nat, minor: nat, patch: nat,
    pre: Option<Pre>,
    dev: Option<nat>,
    local: Option<string>)

  /** PEP 440: a version with a pre-release or a development segment is a pre-release. */
  predicate IsPrerelease(v: Version) { v.pre.Some? || v.dev.Some? }

  /** The public part: everything but the local label. */
  function Public(v: Version): Version { v.(local := None) }

  predicate IsLocalChar(c: char) { 'a' <= c <= 'z' || IsDigit(c) || c == '.' }

  /** PEP 440 local label: dot-separated non-empty runs of lower-case letters and digits. */
  predicate ValidLocal(s: string)
  {
    s != [] && s[0] != '.' && s[|s| - 1] != '.' &&
    (forall i | 0 <= i < |s| :: IsLocalChar(s[i])) &&
    (forall i | 0 <= i < |s| - 1 :: s[i] == '.' ==> s[i + 1] != '.')
  }

  /** The local label, when present, is one the text form can carry. */
  predicate WellFormed(v: Version) { v.local.Some? ==> ValidLocal(v.local.value) }

  // ---------------------------------------------------------------- rendering

  function ReleaseText(major: nat, minor: nat, patch: nat): string
  {
    NatToString(major) + ("." + (NatToString(minor) + ("." + NatToString(patch))))
  }

  function PreText(p: Option<Pre>): string
  {
    match p
    case None => ""
    case Some(q) => "-" + (KindText(q.kind) + NatToString(q.number))
  }

  function DevText(d: Option<nat>): string
  {
    match d
    case None => ""
    case Some(n) => "-dev" + NatToString(n)
  }

  function LocalText(l: Option<string>): string
  {
    match l
    case None => ""
    case Some(s) => "+" + s
  }

  /** The canonical SemVer string of a version. */
  function Render(v: Version): string
  {
    ReleaseText(v.major, v.minor, v.patch) + (PreText(v.pre) + (DevText(v.dev) + LocalText(v.local)))
  }

  /** The PEP 440 normal form, the form of bare tags such as "1.0.0b2" or "1.0.0a2.dev0". */
  function Pep440Text(v: Version): string
  {
    ReleaseText(v.major, v.minor, v.patch) + (Pep440PreText(v.pre) + (Pep440DevText(v.dev) + LocalText(v.local)))
  }

  function Pep440PreText(p: Option<Pre>): string
  {
    match p
    case None => ""
    case Some(q) => KindText(q.kind) + NatToString(q.number)
  }

  function Pep440DevText(d: Option<nat>): string
  {
    match d
    case None => ""
    case Some(n) => ".dev" + NatToString(n)
  }

  // ------------------------------------------------------------------ parsing

  /** An optional ".N" component; a missing component reads as 0. */
  function DotNumber(s: string): (r: (nat, string))
    ensures |r.1| <= |s|
  {
    if |s| > 0 && s[0] == '.' && ParseNat(s[1..]).Some? then ParseNat(s[1..]).value else (0, s)
  }

  function ParseRelease(s: string): Option<(nat, nat, nat, string)>
  {
    match ParseNat(s)
    case None => None
    case Some((major, r1)) =>
      var (minor, r2) := DotNumber(r1);
      var (patch, r3) := DotNumber(r2);
      Some((major, minor, patch, r3))
  }

  predicate IsSeparator(c: char) { c == '-' || c == '_' || c == '.' }

  predicate HasPrefix(s: string, p: string) { |p| <= |s| && s[..|p|] == p }

  /** A phase spelling; longer spellings are tried before their prefixes. */
  function ParseKind(s: string): (r: Option<(PreKind, string)>)
    ensures r.Some? ==> |r.value.1| < |s|
  {
    if HasPrefix(s, "alpha") then Some((Alpha, s[5..]))
    else if HasPrefix(s, "a") then Some((Alpha, s[1..]))
    else if HasPrefix(s, "beta") then Some((Beta, s[4..]))
    else if HasPrefix(s, "b") then Some((Beta, s[1..]))
    else if HasPrefix(s, "rc") then Some((Rc, s[2..]))
    else if HasPrefix(s, "preview") then Some((Rc, s[7..]))
    else if HasPrefix(s, "pre") then Some((Rc, s[3..]))
    else if HasPrefix(s, "c") then Some((Rc, s[1..]))
    else None
  }

  /** An optional number, itself optionally after a separator; a missing number reads as 0. */
  function OptNumber(s: string): (nat, string)
  {
    var body := if |s| > 0 && IsSeparator(s[0]) && ParseNat(s[1..]).Some? then s[1..] else s;
    match ParseNat(body)
    case None => (0, s)
    case Some((n, r)) => (n, r)
  }

  /** An optional pre-release segment: a separator, a phase, an optional number. */
  function ParsePre(s: string): (Option<Pre>, string)
  {
    var body := if |s| > 0 && IsSeparator(s[0]) && ParseKind(s[1..]).Some? then s[1..] else s;
    match ParseKind(body)
    case None => (None, s)
    case Some((k, r)) =>
      var (n, r2) := OptNumber(r);
      (Some(Pre(k, n)), r2)
  }

  predicate StartsWithDev(s: string) { HasPrefix(s, "dev") }

  /** An optional development segment: a separator, "dev", an optional number. */
  function ParseDev(s: string): (Option<nat>, string)
  {
    var body := if |s| > 0 && IsSeparator(s[0]) && StartsWithDev(s[1..]) then s[1..] else s;
    if !StartsWithDev(body) then (None, s)
    else
      var (n, r) := OptNumber(body[3..]);
      (Some(n), r)
  }

  /** What is left must be empty or a "+" local label. */
  function ParseLocal(s: string): Option<Option<string>>
  {
    if s == [] then Some(None)
    else if s[0] == '+' && ValidLocal(s[1..]) then Some(Some(s[1..]))
    else None
  }

  function ParseVersion(s: string): (r: Result<Version>)
    ensures r.Success? ==> WellFormed(r.value)
  {
    var bad := Failure("Invalid version: '" + s + "'");
    match ParseRelease(s)
    case None => bad
    case Some((major, minor, patch, r1)) =>
      var (pre, r2) := ParsePre(r1);
      var (dev, r3) := ParseDev(r2);
      match ParseLocal(r3)
      case None => bad
      case Some(local) => Success(Version(major, minor, patch, pre, dev, local))
  }

  // ------------------------------------------------------- round-trip lemmas

  lemma DotNumberOfText(n: nat, tail: string)
    requires StopsDigits(tail)
    ensures DotNumber("." + (NatToString(n) + tail)) == (n, tail)
  {
    var s := "." + (NatToString(n) + tail);
    assert s[1..] == NatToString(n) + tail;
    ParseNatToString(n, tail);
  }

  lemma ParseReleaseOfText(major: nat, minor: nat, patch: nat, tail: string)
    requires StopsDigits(tail)
    ensures ParseRelease(ReleaseText(major, minor, patch) + tail) == Some((major, minor, patch, tail))
  {
    var r2 := "." + (NatToString(patch) + tail);
    var r1 := "." + (NatToString(minor) + r2);
    assert ReleaseText(major, minor, patch) + tail == NatToString(major) + r1;
    ParseNatToString(major, r1);
    DotNumberOfText(minor, r2);
    DotNumberOfText(patch, tail);
  }

  /** A release of one number: the missing components read as 0. */
  lemma ParseShortRelease(major: nat, tail: string)
    requires StopsDigits(tail) && (tail == [] || tail[0] != '.')
    ensures ParseRelease(NatToString(major) + tail) == Some((major, 0, 0, tail))
  {
    ParseNatToString(major, tail);
  }

  lemma ParseKindOfText(k: PreKind, tail: string)
    requires tail != [] && IsDigit(tail[0])
    ensures ParseKind(KindText(k) + tail) == Some((k, tail))
  {
    var s := KindText(k) + tail;
    assert s[0] == KindText(k)[0];
    assert s[|KindText(k)|] == tail[0];
    assert s[|KindText(k)|..] == tail;
  }

  lemma OptNumberOfText(n: nat, tail: string)
    requires StopsDigits(tail)
    ensures OptNumber(NatToString(n) + tail) == (n, tail)
  {
    ParseNatToString(n, tail);
  }

  /** A text starting with "dev" after one leading character names no phase. */
  lemma NoKindBeforeDev(s: string)
    requires |s| >= 4 && s[1..4] == "dev"
    ensures ParseKind(s[1..]) == None
  {
    assert s[1..][0] == 'd';
  }

  /** Every spelling PEP 440 allows for a phase; the first is the normal one. */
  function Spellings(k: PreKind): (r: seq<string>)
    ensures r != [] && r[0] == KindText(k)
  {
    match k
    case Alpha => ["a", "alpha"]
    case Beta => ["b", "beta"]
    case Rc => ["rc", "c", "pre", "preview"]
  }

  predicate IsLetter(c: char) { 'a' <= c <= 'z' }

  lemma ParseKindSpelling(w: string, k: PreKind, tail: string)
    requires w in Spellings(k) && (tail == [] || !IsLetter(tail[0]))
    ensures ParseKind(w + tail) == Some((k, tail))
  {
    if w == "a" { KindA(tail); }
    else if w == "alpha" { KindAlpha(tail); }
    else if w == "b" { KindB(tail); }
    else if w == "beta" { KindBeta(tail); }
    else if w == "rc" { KindRc(tail); }
    else if w == "c" { KindC(tail); }
    else if w == "pre" { KindPre(tail); }
    else { assert w == "preview"; KindPreview(tail); }
  }

  /** Every spelling starts with a letter, so it is never taken for a separator. */
  lemma SpellingStartsWithLetter(w: string, k: PreKind)
    requires w in Spellings(k)
    ensures w != [] && IsLetter(w[0]) && !IsSeparator(w[0])
  {
  }

  lemma LetterStopsDigits(w: string, t: string)
    requires w != [] && IsLetter(w[0])
    ensures StopsDigits(w + t)
  {
    assert (w + t)[0] == w[0];
  }

  lemma KindA(tail: string)
    requires tail == [] || !IsLetter(tail[0])
    ensures ParseKind("a" + tail) == Some((Alpha, tail))
  {
    var s := "a" + tail;
    assert s[..1] == "a" && s[1..] == tail;
    assert !HasPrefix(s, "alpha") by {
      if |s| >= 5 { assert s[1] == tail[0]; }
    }
  }

  lemma KindAlpha(tail: string)
    ensures ParseKind("alpha" + tail) == Some((Alpha, tail))
  {
    var s := "alpha" + tail;
    assert s[..5] == "alpha" && s[5..] == tail;
  }

  lemma KindB(tail: string)
    requires tail == [] || !IsLetter(tail[0])
    ensures ParseKind("b" + tail) == Some((Beta, tail))
  {
    var s := "b" + tail;
    assert s[0] == 'b' && s[..1] == "b" && s[1..] == tail;
    assert !HasPrefix(s, "alpha") && !HasPrefix(s, "a");
    assert !HasPrefix(s, "beta") by {
      if |s| >= 4 { assert s[1] == tail[0]; }
    }
  }

  lemma KindBeta(tail: string)
    ensures ParseKind("beta" + tail) == Some((Beta, tail))
  {
    var s := "beta" + tail;
    assert s[0] == 'b' && s[..4] == "beta" && s[4..] == tail;
    assert !HasPrefix(s, "alpha") && !HasPrefix(s, "a");
  }

  lemma KindRc(tail: string)
    ensures ParseKind("rc" + tail) == Some((Rc, tail))
  {
    var s := "rc" + tail;
    assert s[0] == 'r' && s[..2] == "rc" && s[2..] == tail;
    assert !HasPrefix(s, "alpha") && !HasPrefix(s, "a") && !HasPrefix(s, "beta") && !HasPrefix(s, "b");
  }

  lemma KindC(tail: string)
    ensures ParseKind("c" + tail) == Some((Rc, tail))
  {
    var s := "c" + tail;
    assert s[0] == 'c' && s[..1] == "c" && s[1..] == tail;
    assert !HasPrefix(s, "alpha") && !HasPrefix(s, "a") && !HasPrefix(s, "beta") && !HasPrefix(s, "b");
    assert !HasPrefix(s, "rc") && !HasPrefix(s, "preview") && !HasPrefix(s, "pre");
  }

  lemma KindPre(tail: string)
    requires tail == [] || !IsLetter(tail[0])
    ensures ParseKind("pre" + tail) == Some((Rc, tail))
  {
    var s := "pre" + tail;
    assert s[0] == 'p' && s[..3] == "pre" && s[3..] == tail;
    assert !HasPrefix(s, "alpha") && !HasPrefix(s, "a") && !HasPrefix(s, "beta") && !HasPrefix(s, "b");
    assert !HasPrefix(s, "rc");
    assert !HasPrefix(s, "preview") by {
      if |s| >= 7 { assert s[3] == tail[0]; }
    }
  }

  lemma KindPreview(tail: string)
    ensures ParseKind("preview" + tail) == Some((Rc, tail))
  {
    var s := "preview" + tail;
    assert s[0] == 'p' && s[..7] == "preview" && s[7..] == tail;
    assert !HasPrefix(s, "alpha") && !HasPrefix(s, "a") && !HasPrefix(s, "beta") && !HasPrefix(s, "b");
    assert !HasPrefix(s, "rc");
  }

  /** Any spelling of a phase, directly after the release, reads as that phase. */
  lemma ParseSpelledPhase(w: string, k: PreKind, n: nat, tail: string)
    requires w in Spellings(k) && StopsDigits(tail)
    ensures ParsePre(w + (NatToString(n) + tail)) == (Some(Pre(k, n)), tail)
  {
    var digitsOn := NatToString(n) + tail;
    ParseKindSpelling(w, k, digitsOn);
    OptNumberOfText(n, tail);
    SpellingStartsWithLetter(w, k);
    assert (w + digitsOn)[0] == w[0];
  }

  /** So does any spelling after a separator. */
  lemma ParseSeparatedSpelledPhase(sep: char, w: string, k: PreKind, n: nat, tail: string)
    requires IsSeparator(sep) && w in Spellings(k) && StopsDigits(tail)
    ensures ParsePre([sep] + (w + (NatToString(n) + tail))) == (Some(Pre(k, n)), tail)
  {
    var digitsOn := NatToString(n) + tail;
    ParseKindSpelling(w, k, digitsOn);
    OptNumberOfText(n, tail);
    assert ([sep] + (w + digitsOn))[1..] == w + digitsOn;
  }

  /** A phase written without a number is numbered 0. */
  lemma ParseUnnumberedPhase(w: string, k: PreKind, tail: string)
    requires w in Spellings(k)
    requires tail == [] || tail[0] == '+'
    ensures ParsePre(w + tail) == (Some(Pre(k, 0)), tail)
  {
    ParseKindSpelling(w, k, tail);
    SpellingStartsWithLetter(w, k);
    assert (w + tail)[0] == w[0];
  }

  lemma ParsePreOfNoPhase(tail: string)
    requires tail == [] || tail[0] == '+' || (|tail| >= 4 && IsSeparator(tail[0]) && tail[1..4] == "dev")
    ensures ParsePre(tail) == (None, tail)
  {
    if tail != [] && tail[0] != '+' {
      NoKindBeforeDev(tail);
    }
    NoKindAt(tail);
  }

  /** A text that does not start with a letter names no phase. */
  lemma NoKindAt(s: string)
    requires s == [] || !IsLetter(s[0])
    ensures ParseKind(s) == None
  {
    if s != [] {
      NotPrefixed(s, "alpha");
      NotPrefixed(s, "a");
      NotPrefixed(s, "beta");
      NotPrefixed(s, "b");
      NotPrefixed(s, "rc");
      NotPrefixed(s, "preview");
      NotPrefixed(s, "pre");
      NotPrefixed(s, "c");
    }
  }

  lemma NotPrefixed(s: string, p: string)
    requires s != [] && !IsLetter(s[0]) && p != [] && IsLetter(p[0])
    ensures !HasPrefix(s, p)
  {
    if |p| <= |s| {
      assert s[..|p|][0] == s[0];
    }
  }

  lemma ParsePreOfText(p: Option<Pre>, tail: string)
    requires tail == [] || tail[0] == '+' || (|tail| >= 4 && tail[..4] == "-dev")
    ensures ParsePre(PreText(p) + tail) == (p, tail)
  {
    match p
    case None =>
      assert PreText(p) + tail == tail;
      ParsePreOfNoPhase(tail);
    case Some(q) =>
      assert PreText(p) + tail == ['-'] + (KindText(q.kind) + (NatToString(q.number) + tail));
      ParseSeparatedSpelledPhase('-', KindText(q.kind), q.kind, q.number, tail);
  }

  lemma ParseDevOfText(d: Option<nat>, tail: string)
    requires tail == [] || tail[0] == '+'
    ensures ParseDev(DevText(d) + tail) == (d, tail)
  {
    match d
    case None =>
      assert DevText(d) + tail == tail;
    case Some(n) =>
      var digitsOn := NatToString(n) + tail;
      var s := DevText(d) + tail;
      assert s == "-dev" + digitsOn;
      assert s[0] == '-' && StartsWithDev(s[1..]);
      assert s[1..][3..] == digitsOn;
      OptNumberOfText(n, tail);
  }

  lemma ParseLocalOfText(l: Option<string>)
    requires l.Some? ==> ValidLocal(l.value)
    ensures ParseLocal(LocalText(l)) == Some(l)
  {
    if l.Some? {
      assert LocalText(l)[1..] == l.value;
    }
  }

  lemma ParseVersionOfParts(s: string, major: nat, minor: nat, patch: nat, r1: string,
                            pre: Option<Pre>, r2: string, dev: Option<nat>, r3: string, local: Option<string>)
    requires ParseRelease(s) == Some((major, minor, patch, r1))
    requires ParsePre(r1) == (pre, r2)
    requires ParseDev(r2) == (dev, r3)
    requires ParseLocal(r3) == Some(local)
    ensures ParseVersion(s) == Success(Version(major, minor, patch, pre, dev, local))
  {
  }

  lemma DevTailShape(d: Option<nat>, lt: string)
    requires lt == [] || lt[0] == '+'
    ensures var dt := DevText(d) + lt; dt == [] || dt[0] == '+' || (|dt| >= 4 && dt[..4] == "-dev")
  {
    if d.Some? {
      assert DevText(d) + lt == "-dev" + (NatToString(d.value) + lt);
    }
  }

  lemma PreTailShape(p: Option<Pre>, dt: string)
    requires dt == [] || dt[0] == '+' || (|dt| >= 4 && dt[..4] == "-dev")
    ensures StopsDigits(PreText(p) + dt)
  {
    if p.Some? {
      assert (PreText(p) + dt)[0] == PreText(p)[0];
    }
  }

  /** Parsing the canonical rendering gives back the version. */
  lemma ParseRender(v: Version)
    requires WellFormed(v)
    ensures ParseVersion(Render(v)) == Success(v)
  {
    var lt := LocalText(v.local);
    var dt := DevText(v.dev) + lt;
    var pt := PreText(v.pre) + dt;
    DevTailShape(v.dev, lt);
    PreTailShape(v.pre, dt);
    ParseReleaseOfText(v.major, v.minor, v.patch, pt);
    ParsePreOfText(v.pre, dt);
    ParseDevOfText(v.dev, lt);
    ParseLocalOfText(v.local);
    ParseVersionOfParts(Render(v), v.major, v.minor, v.patch, pt, v.pre, dt, v.dev, lt, v.local);
  }

  /**
   * A release followed by any spelling of a phase and its number reads as
   * the same version as its normal form.
   */
  lemma ParseSpelledVersion(major: nat, minor: nat, patch: nat, w: string, k: PreKind, n: nat)
    requires w in Spellings(k)
    ensures ParseVersion(ReleaseText(major, minor, patch) + (w + NatToString(n))) ==
            ParseVersion(Pep440Text(Version(major, minor, patch, Some(Pre(k, n)), None, None)))
  {
    var v := Version(major, minor, patch, Some(Pre(k, n)), None, None);
    var pt := w + (NatToString(n) + "");
    assert w + NatToString(n) == pt;
    ParseSpelledPhase(w, k, n, "");
    SpellingStartsWithLetter(w, k);
    LetterStopsDigits(w, NatToString(n) + "");
    ParseReleaseOfText(major, minor, patch, pt);
    ParseVersionOfParts(ReleaseText(major, minor, patch) + pt, major, minor, patch, pt, v.pre, "", None, "", None);
    ParsePep440Text(v);
  }

  /** The same holds with a separator before the phase. */
  lemma ParseSeparatedSpelledVersion(major: nat, minor: nat, patch: nat, sep: char, w: string, k: PreKind, n: nat)
    requires IsSeparator(sep) && w in Spellings(k)
    ensures ParseVersion(ReleaseText(major, minor, patch) + ([sep] + (w + NatToString(n)))) ==
            ParseVersion(Pep440Text(Version(major, minor, patch, Some(Pre(k, n)), None, None)))
  {
    var v := Version(major, minor, patch, Some(Pre(k, n)), None, None);
    var pt := [sep] + (w + (NatToString(n) + ""));
    assert [sep] + (w + NatToString(n)) == pt;
    ParseSeparatedSpelledPhase(sep, w, k, n, "");
    ParseReleaseOfText(major, minor, patch, pt);
    ParseVersionOfParts(ReleaseText(major, minor, patch) + pt, major, minor, patch, pt, v.pre, "", None, "", None);
    ParsePep440Text(v);
  }

  lemma Pep440DevTailShape(d: Option<nat>, lt: string)
    requires lt == [] || lt[0] == '+'
    ensures var dt := Pep440DevText(d) + lt; dt == [] || dt[0] == '+' || (|dt| >= 4 && dt[..4] == ".dev")
  {
    if d.Some? {
      assert Pep440DevText(d) + lt == ".dev" + (NatToString(d.value) + lt);
    }
  }

  lemma Pep440PreTailShape(p: Option<Pre>, dt: string)
    requires dt == [] || dt[0] == '+' || (|dt| >= 4 && dt[..4] == ".dev")
    ensures StopsDigits(Pep440PreText(p) + dt)
  {
    if p.Some? {
      assert (Pep440PreText(p) + dt)[0] == KindText(p.value.kind)[0];
    }
  }

  lemma ParsePep440PreOfText(p: Option<Pre>, tail: string)
    requires tail == [] || tail[0] == '+' || (|tail| >= 4 && tail[..4] == ".dev")
    ensures ParsePre(Pep440PreText(p) + tail) == (p, tail)
  {
    match p
    case None =>
      assert Pep440PreText(p) + tail == tail;
      ParsePreOfNoPhase(tail);
    case Some(q) =>
      assert Pep440PreText(p) + tail == KindText(q.kind) + (NatToString(q.number) + tail);
      ParseSpelledPhase(KindText(q.kind), q.kind, q.number, tail);
  }

  lemma ParsePep440DevOfText(d: Option<nat>, tail: string)
    requires tail == [] || tail[0] == '+'
    ensures ParseDev(Pep440DevText(d) + tail) == (d, tail)
  {
    match d
    case None =>
      assert Pep440DevText(d) + tail == tail;
    case Some(n) =>
      var digitsOn := NatToString(n) + tail;
      var s := Pep440DevText(d) + tail;
      assert s == ".dev" + digitsOn;
      assert s[0] == '.' && StartsWithDev(s[1..]);
      assert s[1..][3..] == digitsOn;
      OptNumberOfText(n, tail);
  }

  /** Parsing the PEP 440 normal form gives back the version. */
  lemma ParsePep440Text(v: Version)
    requires WellFormed(v)
    ensures ParseVersion(Pep440Text(v)) == Success(v)
  {
    var lt := LocalText(v.local);
    var dt := Pep440DevText(v.dev) + lt;
    var pt := Pep440PreText(v.pre) + dt;
    Pep440DevTailShape(v.dev, lt);
    Pep440PreTailShape(v.pre, dt);
    ParseReleaseOfText(v.major, v.minor, v.patch, pt);
    ParsePep440PreOfText(v.pre, dt);
    ParsePep440DevOfText(v.dev, lt);
    ParseLocalOfText(v.local);
    ParseVersionOfParts(Pep440Text(v), v.major, v.minor, v.patch, pt, v.pre, dt, v.dev, lt, v.local);
  }

  /** The PEP 440 form of a version without a development part, from the texts of its parts. */
  lemma Pep440OfParts(v: Version, release: string, pre: string, local: string)
    requires v.dev.None?
    requires ReleaseText(v.major, v.minor, v.patch) == release && Pep440PreText(v.pre) == pre && LocalText(v.local) == local
    ensures Pep440Text(v) == release + pre + local
  {
  }

  /** The rendering of a version without pre-release or development parts, from the digits of its numbers. */
  lemma RenderOfParts(v: Version, a: string, b: string, c: string)
    requires v.pre.None? && v.dev.None?
    requires NatToString(v.major) == a && NatToString(v.minor) == b && NatToString(v.patch) == c
    ensures Render(v) == a + "." + b + "." + c + LocalText(v.local)
  {
    assert Render(v) == ReleaseText(v.major, v.minor, v.patch) + LocalText(v.local);
  }

  /** The canonical rendering is itself accepted, so rendering is injective. */
  lemma RenderInjective(v: Version, w: Version)
    requires WellFormed(v) && WellFormed(w) && Render(v) == Render(w)
    ensures v == w
  {
    ParseRender(v);
    ParseRender(w);
  }

  // ----------------------------------------------------------------- ordering

  /**
   * PEP 440 ordering key, compared lexicographically: the release triple,
   * then the phase (a development release without a phase sorts before every
   * phase, a final release after every phase), then the development number
   * (a development release before the release it leads to), then whether a
   * local label is present. Versions with the same key compare by their local
   * labels.
   */
  function PreRank(v: Version): nat
  {
    if v.pre.Some? then KindRank(v.pre.value.kind) else if v.dev.Some? then 0 else 4
  }

  function Key(v: Version): seq<int>
  {
    [v.major, v.minor, v.patch,
     PreRank(v), if v.pre.Some? then v.pre.value.number else 0,
     if v.dev.Some? then 0 else 1, if v.dev.Some? then v.dev.value else 0,
     if v.local.Some? then 1 else 0]
  }

  predicate LexLeq(a: seq<int>, b: seq<int>)
    requires |a| == |b|
    decreases |a|
  {
    a == [] || a[0] < b[0] || (a[0] == b[0] && LexLeq(a[1..], b[1..]))
  }

  lemma {:induction false} LexLeqTotal(a: seq<int>, b: seq<int>)
    requires |a| == |b|
    ensures LexLeq(a, b) || LexLeq(b, a)
    decreases |a|
  {
    if a != [] && a[0] == b[0] {
      LexLeqTotal(a[1..], b[1..]);
    }
  }

  lemma {:induction false} LexLeqTransitive(a: seq<int>, b: seq<int>, c: seq<int>)
    requires |a| == |b| == |c| && LexLeq(a, b) && LexLeq(b, c)
    ensures LexLeq(a, c)
    decreases |a|
  {
    if a != [] && a[0] == b[0] == c[0] {
      LexLeqTransitive(a[1..], b[1..], c[1..]);
    }
  }

  lemma {:induction false} LexLeqAntisymmetric(a: seq<int>, b: seq<int>)
    requires |a| == |b| && LexLeq(a, b) && LexLeq(b, a)
    ensures a == b
    decreases |a|
  {
    if a != [] {
      LexLeqAntisymmetric(a[1..], b[1..]);
      assert a == [a[0]] + a[1..] && b == [b[0]] + b[1..];
    }
  }

  lemma {:induction false} LexLeqReflexive(a: seq<int>)
    ensures LexLeq(a, a)
    decreases |a|
  {
    if a != [] {
      LexLeqReflexive(a[1..]);
    }
  }

  // ------------------------------------------------------- local labels

  /** The pieces of a local label between its dots, left to right. */
  function LocalSegments(s: string): (r: seq<string>)
    ensures |r| >= 1
    decreases |s|
  {
    if s == [] then [""]
    else if s[0] == '.' then [""] + LocalSegments(s[1..])
    else
      var rest := LocalSegments(s[1..]);
      [[s[0]] + rest[0]] + rest[1..]
  }

  /** A segment of digits only, which PEP 440 compares by its value. */
  predicate IsNumeric(s: string) { s != [] && AllDigits(s) }

  /** Python's string order: character by character, a proper prefix first. */
  predicate TextLeq(a: string, b: string)
    decreases |a|
  {
    a == [] || (b != [] && (a[0] < b[0] || (a[0] == b[0] && TextLeq(a[1..], b[1..]))))
  }

  /** PEP 440 order of local segments: numbers by value and after every word, words alphabetically. */
  predicate SegmentLeq(a: string, b: string)
  {
    if IsNumeric(a) && IsNumeric(b) then ValueOf(a) <= ValueOf(b)
    else if IsNumeric(a) then false
    else if IsNumeric(b) then true
    else TextLeq(a, b)
  }

  /** Segment lists compared segment by segment; a proper prefix comes first. */
  predicate SegmentsLeq(a: seq<string>, b: seq<string>)
    decreases |a|
  {
    a == [] ||
    (b != [] && (!SegmentLeq(b[0], a[0]) ||
                 (SegmentLeq(a[0], b[0]) && SegmentLeq(b[0], a[0]) && SegmentsLeq(a[1..], b[1..]))))
  }

  /** Two local labels are at most one another: no label comes first, labels by their segments. */
  predicate LocalLeq(a: Option<string>, b: Option<string>)
  {
    a.None? || (b.Some? && SegmentsLeq(LocalSegments(a.value), LocalSegments(b.value)))
  }

  /** Segments PEP 440 treats as equal: the same text, or numbers of the same value. */
  predicate SameSegment(a: string, b: string)
  {
    a == b || (IsNumeric(a) && IsNumeric(b) && ValueOf(a) == ValueOf(b))
  }

  /** Local labels PEP 440 treats as equal: segment for segment the same. */
  predicate SameLocal(a: string, b: string)
  {
    var sa, sb := LocalSegments(a), LocalSegments(b);
    |sa| == |sb| && forall i | 0 <= i < |sa| :: SameSegment(sa[i], sb[i])
  }

  lemma {:induction false} TextLeqTotal(a: string, b: string)
    ensures TextLeq(a, b) || TextLeq(b, a)
    decreases |a|
  {
    if a != [] && b != [] && a[0] == b[0] {
      TextLeqTotal(a[1..], b[1..]);
    }
  }

  lemma {:induction false} TextLeqReflexive(a: string)
    ensures TextLeq(a, a)
    decreases |a|
  {
    if a != [] {
      TextLeqReflexive(a[1..]);
    }
  }

  lemma {:induction false} TextLeqTransitive(a: string, b: string, c: string)
    requires TextLeq(a, b) && TextLeq(b, c)
    ensures TextLeq(a, c)
    decreases |a|
  {
    if a != [] && a[0] == b[0] == c[0] {
      TextLeqTransitive(a[1..], b[1..], c[1..]);
    }
  }

  lemma {:induction false} TextLeqAntisymmetric(a: string, b: string)
    requires TextLeq(a, b) && TextLeq(b, a)
    ensures a == b
    decreases |a|
  {
    if a != [] {
      TextLeqAntisymmetric(a[1..], b[1..]);
      assert a == [a[0]] + a[1..] && b == [b[0]] + b[1..];
    }
  }

  lemma SegmentLeqTotal(a: string, b: string)
    ensures SegmentLeq(a, b) || SegmentLeq(b, a)
  {
    TextLeqTotal(a, b);
  }

  lemma SegmentLeqReflexive(a: string)
    ensures SegmentLeq(a, a)
  {
    TextLeqReflexive(a);
  }

  lemma SegmentLeqTransitive(a: string, b: string, c: string)
    requires SegmentLeq(a, b) && SegmentLeq(b, c)
    ensures SegmentLeq(a, c)
  {
    if !IsNumeric(a) && !IsNumeric(b) && !IsNumeric(c) {
      TextLeqTransitive(a, b, c);
    }
  }

  /** Segments at most one another both ways are the same segment. */
  lemma SegmentLeqAntisymmetric(a: string, b: string)
    requires SegmentLeq(a, b) && SegmentLeq(b, a)
    ensures SameSegment(a, b)
  {
    if !IsNumeric(a) && !IsNumeric(b) {
      TextLeqAntisymmetric(a, b);
    }
  }

  lemma {:induction false} SegmentsLeqTotal(a: seq<string>, b: seq<string>)
    ensures SegmentsLeq(a, b) || SegmentsLeq(b, a)
    decreases |a|
  {
    if a != [] && b != [] {
      SegmentLeqTotal(a[0], b[0]);
      SegmentsLeqTotal(a[1..], b[1..]);
    }
  }

  lemma {:induction false} SegmentsLeqReflexive(a: seq<string>)
    ensures SegmentsLeq(a, a)
    decreases |a|
  {
    if a != [] {
      SegmentLeqReflexive(a[0]);
      SegmentsLeqReflexive(a[1..]);
    }
  }

  lemma {:induction false} SegmentsLeqTransitive(a: seq<string>, b: seq<string>, c: seq<string>)
    requires SegmentsLeq(a, b) && SegmentsLeq(b, c)
    ensures SegmentsLeq(a, c)
    decreases |a|
  {
    if a != [] {
      var x, y, z := a[0], b[0], c[0];
      SegmentLeqTotal(x, y);
      SegmentLeqTotal(y, z);
      if SegmentLeq(z, x) {
        if !SegmentLeq(y, x) {
          SegmentLeqTransitive(y, z, x);
        } else if !SegmentLeq(z, y) {
          SegmentLeqTransitive(z, x, y);
        } else {
          SegmentLeqTransitive(x, y, z);
          SegmentsLeqTransitive(a[1..], b[1..], c[1..]);
        }
      }
    }
  }

  lemma {:induction false} SegmentsLeqAntisymmetric(a: seq<string>, b: seq<string>)
    requires SegmentsLeq(a, b) && SegmentsLeq(b, a)
    ensures |a| == |b| && forall i | 0 <= i < |a| :: SameSegment(a[i], b[i])
    decreases |a|
  {
    if a != [] {
      SegmentLeqTotal(a[0], b[0]);
      SegmentsLeqAntisymmetric(a[1..], b[1..]);
      SegmentLeqAntisymmetric(a[0], b[0]);
      forall i | 0 < i < |a| ensures SameSegment(a[i], b[i]) {
        assert a[i] == a[1..][i - 1] && b[i] == b[1..][i - 1];
      }
    }
  }

  // ------------------------------------------------------- the version order

  /** At most: an earlier key, or the same key and a local label at most the other's. */
  predicate Leq(v: Version, w: Version)
  {
    LexLeq(Key(v), Key(w)) && (Key(v) == Key(w) ==> LocalLeq(v.local, w.local))
  }

  predicate Less(v: Version, w: Version) { !Leq(w, v) }

  lemma LocalLeqTotal(a: Option<string>, b: Option<string>)
    ensures LocalLeq(a, b) || LocalLeq(b, a)
  {
    if a.Some? && b.Some? {
      SegmentsLeqTotal(LocalSegments(a.value), LocalSegments(b.value));
    }
  }

  lemma LeqTotal(v: Version, w: Version)
    ensures Leq(v, w) || Leq(w, v)
  {
    LexLeqTotal(Key(v), Key(w));
    LocalLeqTotal(v.local, w.local);
  }

  lemma LeqReflexive(v: Version)
    ensures Leq(v, v)
  {
    LexLeqReflexive(Key(v));
    if v.local.Some? {
      SegmentsLeqReflexive(LocalSegments(v.local.value));
    }
  }

  lemma LeqTransitive(u: Version, v: Version, w: Version)
    requires Leq(u, v) && Leq(v, w)
    ensures Leq(u, w)
  {
    LexLeqTransitive(Key(u), Key(v), Key(w));
    if Key(u) == Key(w) {
      LexLeqAntisymmetric(Key(u), Key(v));
      if u.local.Some? && v.local.Some? && w.local.Some? {
        SegmentsLeqTransitive(LocalSegments(u.local.value), LocalSegments(v.local.value), LocalSegments(w.local.value));
      }
    }
  }

  /**
   * Versions that sort as equal have the same public part, and either no
   * local label or labels that are segment for segment the same.
   */
  lemma LeqAntisymmetric(v: Version, w: Version)
    requires Leq(v, w) && Leq(w, v)
    ensures Public(v) == Public(w) && v.local.Some? == w.local.Some?
    ensures v.local.Some? ==> SameLocal(v.local.value, w.local.value)
  {
    LexLeqAntisymmetric(Key(v), Key(w));
    var kv, kw := Key(v), Key(w);
    assert kv[3] == kw[3] && kv[4] == kw[4] && kv[5] == kw[5] && kv[6] == kw[6] && kv[7] == kw[7];
    if v.pre.Some? {
      assert w.pre.Some?;
      assert v.pre.value.kind == w.pre.value.kind;
    }
    if v.local.Some? {
      SegmentsLeqAntisymmetric(LocalSegments(v.local.value), LocalSegments(w.local.value));
    }
  }

  /** Less is strict: at most one way and not the other, never both ways. */
  lemma LessIsStrict(v: Version, w: Version)
    ensures Less(v, w) <==> Leq(v, w) && !Leq(w, v)
    ensures !(Less(v, w) && Less(w, v))
  {
    LeqTotal(v, w);
  }

  /**
   * PEP 440 on local labels: with the same public part, a version without a
   * label comes first, and labels compare segment by segment.
   */
  lemma LocalOrdering(v: Version, w: Version)
    requires Public(v) == Public(w)
    ensures Leq(v, w) <==> LocalLeq(v.local, w.local)
  {
    var kv, kw := Key(v), Key(w);
    assert kv[..7] == kw[..7];
    if v.local.None? && w.local.Some? {
      LexLeqFirstDifference(kv, kw, 7);
    } else if v.local.Some? && w.local.None? {
      LexLeqFirstDifference(kw, kv, 7);
    } else {
      assert kv == kw;
      LexLeqReflexive(kv);
    }
  }

  /** Keys that agree before position i and differ at i are ordered by that position. */
  lemma {:induction false} LexLeqFirstDifference(a: seq<int>, b: seq<int>, i: nat)
    requires |a| == |b| && i < |a| && a[..i] == b[..i] && a[i] < b[i]
    ensures LexLeq(a, b) && !LexLeq(b, a)
    decreases i
  {
    if i > 0 {
      assert a[0] == a[..i][0] == b[..i][0] == b[0];
      assert a[1..][..i - 1] == a[..i][1..] && b[1..][..i - 1] == b[..i][1..];
      LexLeqFirstDifference(a[1..], b[1..], i - 1);
    }
  }

  /** Release triples in their numeric lexicographic order. */
  predicate ReleaseLess(a: (nat, nat, nat), b: (nat, nat, nat))
  {
    a.0 < b.0 || (a.0 == b.0 && (a.1 < b.1 || (a.1 == b.1 && a.2 < b.2)))
  }

  /** A version with a higher release triple is later, whatever its other segments. */
  lemma ReleaseOrdering(v: Version, w: Version)
    requires ReleaseLess((v.major, v.minor, v.patch), (w.major, w.minor, w.patch))
    ensures Less(v, w)
  {
    var kv, kw := Key(v), Key(w);
    if v.major != w.major {
      LexLeqFirstDifference(kv, kw, 0);
    } else if v.minor != w.minor {
      assert kv[..1] == kw[..1];
      LexLeqFirstDifference(kv, kw, 1);
    } else {
      assert kv[..2] == kw[..2];
      LexLeqFirstDifference(kv, kw, 2);
    }
  }

  /**
   * PEP 440, "Summary of permitted suffixes and relative ordering", within one
   * release triple: a development release of the release itself sorts before
   * every pre-release, pre-releases before the final release, alpha before
   * beta before release candidate, lower numbers first, and a development
   * release before the release it leads to.
   */
  predicate PhaseBefore(v: Version, w: Version)
  {
    (v.pre.None? && v.dev.Some? && w.pre.Some?) ||
    (v.pre.Some? && w.pre.None? && w.dev.None?) ||
    (v.pre.Some? && w.pre.Some? && KindRank(v.pre.value.kind) < KindRank(w.pre.value.kind)) ||
    (v.pre.Some? && w.pre.Some? && v.pre.value.kind == w.pre.value.kind && v.pre.value.number < w.pre.value.number) ||
    (v.pre == w.pre && v.dev.Some? && w.dev.None?) ||
    (v.pre == w.pre && v.dev.Some? && w.dev.Some? && v.dev.value < w.dev.value)
  }

  /** A higher release, or the same release in an earlier phase. */
  predicate Precedes(v: Version, w: Version)
  {
    ReleaseLess((v.major, v.minor, v.patch), (w.major, w.minor, w.patch)) ||
    ((v.major, v.minor, v.patch) == (w.major, w.minor, w.patch) && PhaseBefore(v, w))
  }

  lemma PhaseOrdering(v: Version, w: Version)
    requires v.major == w.major && v.minor == w.minor && v.patch == w.patch
    requires PhaseBefore(v, w)
    ensures Less(v, w)
  {
    var kv, kw := Key(v), Key(w);
    assert kv[..3] == kw[..3];
    if kv[3] < kw[3] {
      LexLeqFirstDifference(kv, kw, 3);
    } else if kv[4] < kw[4] {
      assert kv[..4] == kw[..4];
      LexLeqFirstDifference(kv, kw, 4);
    } else if kv[5] < kw[5] {
      assert kv[..5] == kw[..5];
      LexLeqFirstDifference(kv, kw, 5);
    } else {
      assert kv[..6] == kw[..6];
      LexLeqFirstDifference(kv, kw, 6);
    }
  }

  /** Two phases of one triple: one is before the other, or they are the same phase. */
  lemma PhaseTrichotomy(v: Version, w: Version)
    ensures PhaseBefore(v, w) || PhaseBefore(w, v) || (v.pre == w.pre && v.dev == w.dev)
  {
    if v.pre.Some? && w.pre.Some? && v.pre.value.kind == w.pre.value.kind && v.pre.value.number == w.pre.value.number {
      assert v.pre == w.pre;
    }
  }

  /**
   * Precedes is one way to be earlier; without local labels it is the only
   * way: a lower triple, or the same triple in an earlier phase.
   */
  lemma PrecedesIsLess(v: Version, w: Version)
    ensures Precedes(v, w) ==> Less(v, w)
    ensures v.local.None? && w.local.None? && Less(v, w) ==> Precedes(v, w)
  {
    var tv, tw := (v.major, v.minor, v.patch), (w.major, w.minor, w.patch);
    if ReleaseLess(tv, tw) {
      ReleaseOrdering(v, w);
    } else if tv == tw && PhaseBefore(v, w) {
      PhaseOrdering(v, w);
    } else if v.local.None? && w.local.None? {
      // not Precedes(v, w): then w is at most v
      PhaseTrichotomy(v, w);
      if ReleaseLess(tw, tv) {
        ReleaseOrdering(w, v);
        LeqTotal(v, w);
      } else if PhaseBefore(w, v) {
        PhaseOrdering(w, v);
        LeqTotal(v, w);
      } else {
        assert v == w;
        LeqReflexive(v);
      }
    }
  }
}
