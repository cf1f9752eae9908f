/** The ordering that compare_versions in data/generated_scripts/packaging/9.py
    relies on: a release with a pre-release segment sorts before the same
    release without one (PEP 440, "Pre-releases" section). Only the release
    segment and the a/b/rc pre-release segment are modelled. */
module Versions {
  import opened Wrappers

  /** The pre-release phases, in their PEP 440 order: a < b < rc. */
  datatype Phase = Alpha | Beta | ReleaseCandidate

  datatype PreRelease = PreRelease(phase: Phase, number: nat)

  /** `release` is the dotted numeric part, `pre` the optional pre-release. */
  datatype Version = Version(release: seq<nat>, pre: Option<PreRelease>)

  function Sign(x: int): int
  {
    if x < 0 then -1 else if x > 0 then 1 else 0
  }

  function PhaseRank(p: Phase): nat
  {
    match p
    case Alpha => 0
    case Beta => 1
    case ReleaseCandidate => 2
  }

  /** Compares two release segments component by component; a missing
      trailing component counts as 0, so 1.0 and 1.0.0 are equal. */
  function CompareRelease(a: seq<nat>, b: seq<nat>): (c: int)
    ensures c == -1 || c == 0 || c == 1
    decreases |a| + |b|
  {
    if a == [] && b == [] then 0
    else
      var x: int := if a == [] then 0 else a[0];
      var y: int := if b == [] then 0 else b[0];
      if x != y then Sign(x - y)
      else CompareRelease(if a == [] then [] else a[1..], if b == [] then [] else b[1..])
  }

  /** Compares pre-release segments; no pre-release sorts after every one. */
  function ComparePre(p: Option<PreRelease>, q: Option<PreRelease>): (c: int)
    ensures c == -1 || c == 0 || c == 1
    ensures p.Some? && q.None? ==> c == -1
    ensures p.None? && q.Some? ==> c == 1
  {
    match (p, q)
    case (None, None) => 0
    case (Some(_), None) => -1
    case (None, Some(_)) => 1
    case (Some(x), Some(y)) =>
      if x.phase != y.phase then Sign(PhaseRank(x.phase) - PhaseRank(y.phase))
      else Sign(x.number - y.number)
  }

  /** -1, 0 or 1 as v sorts before, with or after w. */
  function Compare(v: Version, w: Version): (c: int)
    ensures c == -1 || c == 0 || c == 1
  {
    var c := CompareRelease(v.release, w.release);
    if c != 0 then c else ComparePre(v.pre, w.pre)
  }

  predicate Less(v: Version, w: Version)
  {
    Compare(v, w) < 0
  }

  /** Every release segment is equal to itself. */
  lemma {:induction false} CompareReleaseReflexive(a: seq<nat>)
    ensures CompareRelease(a, a) == 0
    decreases |a|
  {
    if a != [] {
      CompareReleaseReflexive(a[1..]);
    }
  }

  /** Swapping the operands negates the release comparison. */
  lemma {:induction false} CompareReleaseAntisymmetric(a: seq<nat>, b: seq<nat>)
    ensures CompareRelease(a, b) == -CompareRelease(b, a)
    decreases |a| + |b|
  {
    if a != [] || b != [] {
      CompareReleaseAntisymmetric(if a == [] then [] else a[1..], if b == [] then [] else b[1..]);
    }
  }

  /** Trailing zero components do not matter: 1.0.4 equals 1.0.4.0. */
  lemma {:induction false} CompareReleasePadded(a: seq<nat>, zeros: seq<nat>)
    requires forall i :: 0 <= i < |zeros| ==> zeros[i] == 0
    ensures CompareRelease(a + zeros, a) == 0
    decreases |a| + |zeros|
  {
    if a != [] {
      assert (a + zeros)[1..] == a[1..] + zeros;
      CompareReleasePadded(a[1..], zeros);
    } else if zeros != [] {
      assert a + zeros == zeros;
      CompareReleasePadded([], zeros[1..]);
      assert [] + zeros[1..] == zeros[1..];
    }
  }

  /** The release comparison is transitive, strictly as soon as one of the
      two steps is strict. */
  lemma {:induction false} CompareReleaseTransitive(a: seq<nat>, b: seq<nat>, c: seq<nat>)
    ensures CompareRelease(a, b) <= 0 && CompareRelease(b, c) <= 0 ==> CompareRelease(a, c) <= 0
    ensures CompareRelease(a, b) == 0 && CompareRelease(b, c) == 0 ==> CompareRelease(a, c) == 0
    ensures CompareRelease(a, b) < 0 && CompareRelease(b, c) <= 0 ==> CompareRelease(a, c) < 0
    ensures CompareRelease(a, b) <= 0 && CompareRelease(b, c) < 0 ==> CompareRelease(a, c) < 0
    decreases |a| + |b| + |c|
  {
    if a != [] || b != [] || c != [] {
      CompareReleaseTransitive(if a == [] then [] else a[1..],
                               if b == [] then [] else b[1..],
                               if c == [] then [] else c[1..]);
    }
  }

  /** Swapping the operands negates the pre-release comparison. */
  lemma ComparePreAntisymmetric(p: Option<PreRelease>, q: Option<PreRelease>)
    ensures ComparePre(p, q) == -ComparePre(q, p)
  {
  }

  /** Swapping the operands negates the version comparison. */
  lemma CompareAntisymmetric(v: Version, w: Version)
    ensures Compare(v, w) == -Compare(w, v)
  {
    CompareReleaseAntisymmetric(v.release, w.release);
    ComparePreAntisymmetric(v.pre, w.pre);
  }

  /** `<` on versions is transitive, so with LessStrict it is a strict order. */
  lemma LessTransitive(u: Version, v: Version, w: Version)
    requires Less(u, v) && Less(v, w)
    ensures Less(u, w)
  {
    CompareReleaseTransitive(u.release, v.release, w.release);
  }

  /** `<` on versions is irreflexive and asymmetric. */
  lemma LessStrict(v: Version, w: Version)
    ensures !Less(v, v)
    ensures Less(v, w) ==> !Less(w, v)
  {
    CompareReleaseReflexive(v.release);
    CompareAntisymmetric(v, w);
  }

  /** A pre-release sorts strictly before its final release. */
  lemma PreReleaseBeforeFinal(release: seq<nat>, pre: PreRelease)
    ensures Less(Version(release, Some(pre)), Version(release, None))
    ensures !Less(Version(release, None), Version(release, Some(pre)))
  {
    CompareReleaseReflexive(release);
  }

  /** The instance compare_versions asserts: 1.0.4a3 < 1.0.4. */
  lemma CompareVersions()
    ensures Less(Version([1, 0, 4], Some(PreRelease(Alpha, 3))), Version([1, 0, 4], None))
  {
    PreReleaseBeforeFinal([1, 0, 4], PreRelease(Alpha, 3));
  }
}
