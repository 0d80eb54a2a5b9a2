/**
 * Bumping a version under the SemVer scheme: raise the release triple by an
 * increment, enter or advance a pre-release phase, attach a development
 * release, or bump only the local label.
 */
module SemVer {
  import opened Wrappers
  import opened Digits
  import opened Versions

  datatype Increment = Major | Minor | Patch

  function Triple(v: Version): (nat, nat, nat) { (v.major, v.minor, v.patch) }

  /** The triple with the increment applied: that component raised, the lower ones reset. */
  function IncrementBase(v: Version, inc: Option<Increment>): (nat, nat, nat)
  {
    match inc
    case None => Triple(v)
    case Some(Major) => (v.major + 1, 0, 0)
    case Some(Minor) => (v.major, v.minor + 1, 0)
    case Some(Patch) => (v.major, v.minor, v.patch + 1)
  }

  /**
   * The pre-release segment of the bumped version, computed against `from`.
   * A requested phase earlier than the current one is replaced by the current
   * one; staying in the current phase advances its number, entering a phase
   * numbers it with the offset.
   */
  function GeneratePrerelease(from: Version, requested: Option<PreKind>, offset: nat): Option<Pre>
  {
    match requested
    case None => None
    case Some(k) =>
      match from.pre
      case None => Some(Pre(k, offset))
      case Some(cur) =>
        var kind := MaxKind(k, cur.kind);
        if kind == cur.kind then Some(Pre(kind, cur.number + 1)) else Some(Pre(kind, offset))
  }

  /**
   * The new release triple. A final version (or any version when the increment
   * is exact) takes the increment. A pre-release keeps its triple when that
   * triple already carries the increment: always for PATCH or no increment,
   * for MINOR when the patch is 0, for MAJOR when minor and patch are 0.
   */
  function NewBase(v: Version, inc: Option<Increment>, exact: bool): (nat, nat, nat)
  {
    if !IsPrerelease(v) || exact then IncrementBase(v, inc)
    else if inc == Some(Minor) && v.patch != 0 then IncrementBase(v, inc)
    else if inc == Some(Major) && (v.minor != 0 || v.patch != 0) then IncrementBase(v, inc)
    else Triple(v)
  }

  /** Bump of the public part; the local label is dropped. */
  function BumpPublic(v: Version, inc: Option<Increment>, prerelease: Option<PreKind>,
                      offset: nat, devrelease: Option<nat>, exact: bool): Version
  {
    var base := NewBase(v, inc, exact);
    var from := if base == Triple(v) then v else Version(base.0, base.1, base.2, None, None, None);
    Version(base.0, base.1, base.2, GeneratePrerelease(from, prerelease, offset), devrelease, None)
  }

  /**
   * SemVer bump. With `isLocal` and a local label present, only the local
   * label is bumped (read as a version, raised by the increment alone) and
   * the public part is kept; a label that does not read as a version fails.
   */
  function Bump(v: Version, inc: Option<Increment>, prerelease: Option<PreKind>, offset: nat,
                devrelease: Option<nat>, isLocal: bool, exact: bool): Result<Version>
  {
    if isLocal && v.local.Some? then
      match ParseVersion(v.local.value)
      case Failure(e) => Failure(e)
      case Success(lv) =>
        Success(v.(local := Some(Render(BumpPublic(lv, inc, None, 0, None, false)))))
    else Success(BumpPublic(v, inc, prerelease, offset, devrelease, exact))
  }

  /** Parse, bump and render: the shape of every case in the SemVer bump tables. */
  function BumpText(current: string, inc: Option<Increment>, prerelease: Option<PreKind>, offset: nat,
                    devrelease: Option<nat>, isLocal: bool, exact: bool): Result<string>
  {
    match ParseVersion(current)
    case Failure(e) => Failure(e)
    case Success(v) =>
      match Bump(v, inc, prerelease, offset, devrelease, isLocal, exact)
      case Failure(e) => Failure(e)
      case Success(r) => Success(Render(r))
  }

  // ------------------------------------------------------------- properties

  lemma IncrementRaisesTriple(v: Version, inc: Increment)
    ensures var t := IncrementBase(v, Some(inc)); ReleaseLess((v.major, v.minor, v.patch), t)
    ensures var t := IncrementBase(v, Some(inc));
      (inc == Major ==> t.1 == 0 && t.2 == 0) && (inc == Minor ==> t.0 == v.major && t.2 == 0) &&
      (inc == Patch ==> t.0 == v.major && t.1 == v.minor)
  {
  }

  /**
   * Bumping a final release by an increment raises its triple by that
   * increment, which makes the result a later version; the requested phase
   * starts at the offset, the development release is the requested one and
   * the local label is dropped. Exactness makes no difference.
   */
  lemma BumpFinalRelease(v: Version, inc: Increment, prerelease: Option<PreKind>, offset: nat,
                         devrelease: Option<nat>, exact: bool)
    requires !IsPrerelease(v)
    ensures var r := BumpPublic(v, Some(inc), prerelease, offset, devrelease, exact);
      Triple(r) == IncrementBase(v, Some(inc)) && Less(v, r) &&
      (prerelease.None? ==> r.pre.None?) &&
      (prerelease.Some? ==> r.pre == Some(Pre(prerelease.value, offset))) &&
      r.dev == devrelease && r.local.None? &&
      r == BumpPublic(v, Some(inc), prerelease, offset, devrelease, !exact)
  {
    var r := BumpPublic(v, Some(inc), prerelease, offset, devrelease, exact);
    IncrementRaisesTriple(v, inc);
    ReleaseOrdering(v, r);
  }

  /**
   * An exact increment always takes effect, even on a pre-release: the triple
   * is raised, and a requested phase starts afresh at the offset.
   */
  lemma ExactBumpIncrements(v: Version, inc: Increment, prerelease: Option<PreKind>, offset: nat,
                            devrelease: Option<nat>)
    ensures var r := BumpPublic(v, Some(inc), prerelease, offset, devrelease, true);
      Triple(r) == IncrementBase(v, Some(inc)) && Less(v, r) &&
      (prerelease.Some? ==> r.pre == Some(Pre(prerelease.value, offset))) &&
      (prerelease.None? ==> r.pre.None?) &&
      r.dev == devrelease && r.local.None?
  {
    var r := BumpPublic(v, Some(inc), prerelease, offset, devrelease, true);
    IncrementRaisesTriple(v, inc);
    ReleaseOrdering(v, r);
  }

  /** The increment is already carried by a pre-release's triple, so a non-exact bump keeps it. */
  predicate KeepsTriple(v: Version, inc: Option<Increment>)
  {
    inc == None || inc == Some(Patch) || (inc == Some(Minor) && v.patch == 0) ||
    (inc == Some(Major) && v.minor == 0 && v.patch == 0)
  }

  /**
   * Advancing a pre-release never moves backwards: the new phase is at least
   * the current one and the requested one, staying in the phase advances its
   * number (the offset plays no part), and the result is a later version.
   */
  lemma PrereleaseMovesForward(v: Version, inc: Option<Increment>, k: PreKind, offset: nat, devrelease: Option<nat>)
    requires v.pre.Some? && KeepsTriple(v, inc)
    ensures var r := BumpPublic(v, inc, Some(k), offset, devrelease, false);
      Triple(r) == Triple(v) && r.pre.Some? &&
      KindRank(r.pre.value.kind) >= KindRank(v.pre.value.kind) &&
      KindRank(r.pre.value.kind) >= KindRank(k) &&
      (r.pre.value.kind == v.pre.value.kind ==> r.pre.value.number == v.pre.value.number + 1) &&
      (r.pre.value.kind != v.pre.value.kind ==> r.pre.value.number == offset) &&
      Less(v, r)
  {
    var r := BumpPublic(v, inc, Some(k), offset, devrelease, false);
    PhaseOrdering(v, r);
  }

  /**
   * Without an increment, a final release keeps its triple and enters the
   * requested phase at the offset, whatever the exactness; the result is the
   * same release in a pre-release phase, which sorts before the release itself.
   */
  lemma FinalEntersPhase(v: Version, k: PreKind, offset: nat, devrelease: Option<nat>, exact: bool)
    requires !IsPrerelease(v)
    ensures var r := BumpPublic(v, None, Some(k), offset, devrelease, exact);
      r == Version(v.major, v.minor, v.patch, Some(Pre(k, offset)), devrelease, None) &&
      (v.local.None? ==> Less(r, v))
  {
    var r := BumpPublic(v, None, Some(k), offset, devrelease, exact);
    if v.local.None? {
      PhaseOrdering(r, v);
    }
  }

  /**
   * A development release with no phase whose triple already carries the
   * increment keeps its triple and enters the requested phase at the offset;
   * the result is a later version.
   */
  lemma DevReleaseEntersPhase(v: Version, inc: Option<Increment>, k: PreKind, offset: nat, devrelease: Option<nat>)
    requires v.pre.None? && v.dev.Some? && KeepsTriple(v, inc)
    ensures var r := BumpPublic(v, inc, Some(k), offset, devrelease, false);
      r == Version(v.major, v.minor, v.patch, Some(Pre(k, offset)), devrelease, None) && Less(v, r)
  {
    PhaseOrdering(v, BumpPublic(v, inc, Some(k), offset, devrelease, false));
  }

  /**
   * Without a requested phase, a pre-release whose triple already carries the
   * increment is finalised: same triple, no phase, the requested development
   * release, no local label; with no development release that is a later version.
   */
  lemma FinalisePrerelease(v: Version, inc: Option<Increment>, devrelease: Option<nat>, offset: nat)
    requires IsPrerelease(v) && KeepsTriple(v, inc)
    ensures var r := BumpPublic(v, inc, None, offset, devrelease, false);
      r == Version(v.major, v.minor, v.patch, None, devrelease, None) &&
      (devrelease.None? ==> Less(v, r))
  {
    if devrelease.None? {
      PhaseOrdering(v, BumpPublic(v, inc, None, offset, devrelease, false));
    }
  }

  /**
   * A pre-release whose triple does not yet carry the increment takes it, and
   * a requested phase starts afresh at the offset.
   */
  lemma PrereleaseTakesIncrement(v: Version, inc: Increment, prerelease: Option<PreKind>, offset: nat,
                                 devrelease: Option<nat>)
    requires IsPrerelease(v) && !KeepsTriple(v, Some(inc))
    ensures var r := BumpPublic(v, Some(inc), prerelease, offset, devrelease, false);
      Triple(r) == IncrementBase(v, Some(inc)) && Less(v, r) &&
      (prerelease.Some? ==> r.pre == Some(Pre(prerelease.value, offset)))
  {
    var r := BumpPublic(v, Some(inc), prerelease, offset, devrelease, false);
    IncrementRaisesTriple(v, inc);
    ReleaseOrdering(v, r);
  }


  /** A release triple is itself a valid local label. */
  lemma ReleaseTextIsLocal(major: nat, minor: nat, patch: nat)
    ensures ValidLocal(ReleaseText(major, minor, patch))
  {
    var a, b, c := NatToString(major), NatToString(minor), NatToString(patch);
    var t := ReleaseText(major, minor, patch);
    assert t == a + ['.'] + b + ['.'] + c;
    assert t[0] == a[0] && t[|t| - 1] == c[|c| - 1];
    forall i | 0 <= i < |t| ensures IsLocalChar(t[i]) && (t[i] == '.' ==> i == |a| || i == |a| + 1 + |b|) {
      if i < |a| {
        assert t[i] == a[i];
      } else if i == |a| {
      } else if i < |a| + 1 + |b| {
        assert t[i] == b[i - |a| - 1];
      } else if i == |a| + 1 + |b| {
      } else {
        assert t[i] == c[i - |a| - |b| - 2];
      }
    }
  }

  /**
   * A local bump keeps the public part, ignores the phase, offset, development
   * release and exactness arguments, and succeeds exactly when the label reads
   * as a version; the new label reads back as that version bumped by the
   * increment alone, and is itself a valid label.
   */
  lemma LocalBump(v: Version, inc: Option<Increment>, prerelease: Option<PreKind>, offset: nat,
                  devrelease: Option<nat>, exact: bool)
    requires v.local.Some?
    ensures var b := Bump(v, inc, prerelease, offset, devrelease, true, exact);
      b == Bump(v, inc, None, 0, None, true, false) &&
      (b.Success? <==> ParseVersion(v.local.value).Success?) &&
      (b.Success? ==>
        Public(b.value) == Public(v) && b.value.local.Some? && ValidLocal(b.value.local.value) &&
        ParseVersion(b.value.local.value) == Success(BumpPublic(ParseVersion(v.local.value).value, inc, None, 0, None, false)))
  {
    var b := Bump(v, inc, prerelease, offset, devrelease, true, exact);
    if b.Success? {
      var lv := ParseVersion(v.local.value).value;
      var nv := BumpPublic(lv, inc, None, 0, None, false);
      assert Render(nv) == ReleaseText(nv.major, nv.minor, nv.patch);
      ReleaseTextIsLocal(nv.major, nv.minor, nv.patch);
      ParseRender(nv);
    }
  }

  /**
   * Every other bump succeeds, bumps the public part and drops the local label,
   * so the result always renders to text that reads back as it.
   */
  lemma PublicBump(v: Version, inc: Option<Increment>, prerelease: Option<PreKind>, offset: nat,
                   devrelease: Option<nat>, isLocal: bool, exact: bool)
    requires !isLocal || v.local.None?
    ensures var b := Bump(v, inc, prerelease, offset, devrelease, isLocal, exact);
      b.Success? && b.value.local.None? && b.value.dev == devrelease &&
      ParseVersion(Render(b.value)) == b
  {
    ParseRender(Bump(v, inc, prerelease, offset, devrelease, isLocal, exact).value);
  }
}
