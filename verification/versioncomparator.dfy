/**
 * `VersionComparator`: the order of domain versions used to pick schema
 * upgrades. Numbers compare null-first and are normalised to -1/0/1; the
 * qualifier comparison is returned as `String.compareTo` gives it.
 */
module VersionComparator {
  import opened Jdk
  import CommonUtils
  import opened DomainVersion

  /** `Integer.compareTo`. */
  function IntegerCompareTo(x: Int32, y: Int32): (r: int)
    ensures r < 0 <==> x < y
    ensures r > 0 <==> x > y
  {
    if x < y then -1 else if x > y then 1 else 0
  }

  /** The comparator's private `safeCompare` on Integers: null below any number. */
  function SafeCompareIntegers(i1: Option<Int32>, i2: Option<Int32>): (r: int)
    ensures r == 0 <==> i1 == i2
    ensures r < 0 <==> (i1.None? && i2.Some?) || (i1.Some? && i2.Some? && i1.value < i2.value)
  {
    CommonUtils.SafeCompare(i1, i2, IntegerCompareTo)
  }

  function Sign(r: int): int { if r < 0 then -1 else if r > 0 then 1 else 0 }

  /** `compare`: lexicographic over major, minor, maintenance, then qualifier. */
  function Compare(v1: Version, v2: Version): (r: int)
    ensures r == 0 <==> v1 == v2
    ensures (v1.major, v1.minor, v1.maintenance) != (v2.major, v2.minor, v2.maintenance) ==> r in {-1, 1}
    ensures (v1.major, v1.minor, v1.maintenance) == (v2.major, v2.minor, v2.maintenance) ==>
              r == CommonUtils.SafeCompareStrings(v1.qualifier, v2.qualifier)
  {
    var major := SafeCompareIntegers(v1.major, v2.major);
    if major < 0 then -1
    else if major > 0 then 1
    else
      var minor := SafeCompareIntegers(v1.minor, v2.minor);
      if minor < 0 then -1
      else if minor > 0 then 1
      else
        var maintenance := SafeCompareIntegers(v1.maintenance, v2.maintenance);
        if maintenance < 0 then -1
        else if maintenance > 0 then 1
        else CommonUtils.SafeCompareStrings(v1.qualifier, v2.qualifier)
  }

  /** `compare(v, v) == 0`. */
  lemma CompareReflexive(v: Version)
    ensures Compare(v, v) == 0
  {
  }

  /** Swapping the arguments negates the result exactly. */
  lemma CompareAntisymmetric(v1: Version, v2: Version)
    ensures Compare(v2, v1) == -Compare(v1, v2)
    ensures Sign(Compare(v2, v1)) == -Sign(Compare(v1, v2))
  {
    CommonUtils.SafeCompareStringsAntisymmetric(v1.qualifier, v2.qualifier);
  }

  /** The comparator is transitive, so it is a total order on domain versions. */
  lemma CompareTransitive(v1: Version, v2: Version, v3: Version)
    requires Compare(v1, v2) <= 0 && Compare(v2, v3) <= 0
    ensures Compare(v1, v3) <= 0
  {
    if (v1.major, v1.minor, v1.maintenance) == (v2.major, v2.minor, v2.maintenance) == (v3.major, v3.minor, v3.maintenance) {
      CommonUtils.SafeCompareStringsTransitive(v1.qualifier, v2.qualifier, v3.qualifier);
    }
  }

  /** A null component sorts before a present one, whatever follows. */
  lemma NullComponentSortsFirst(v1: Version, v2: Version)
    requires v1.major.None? && v2.major.Some?
    ensures Compare(v1, v2) == -1 && Compare(v2, v1) == 1
  {
  }

  /** `1.0.0` (no qualifier) sorts below `1.0.0-x` for any qualifier `x`. */
  lemma ReleaseBelowQualified(major: Option<Int32>, minor: Option<Int32>, maintenance: Option<Int32>, q: string)
    ensures Compare(Version(major, minor, maintenance, None), Version(major, minor, maintenance, Some(q))) == -1
  {
  }
}
