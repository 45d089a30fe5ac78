/**
 * The helpers of the executor core's own `CommonUtils` class: null-aware
 * Integer max/min, int max/min, case-insensitive null-aware equality,
 * `nullOrEmpty`, resource-name building, and the same deep equality and
 * root-cause walk as the shared `CommonUtils`.
 */
module CoreCommonUtils {
  import opened Jdk
  import StringUtils
  import CommonUtils

  /** The order the Integer helpers document: null is below every int. */
  predicate NullLowestAtMost(a: Option<Int32>, b: Option<Int32>)
  {
    a.None? || (b.Some? && a.value <= b.value)
  }

  /** `max(Integer, Integer)`: the larger of two present values, else whichever is present, else null. */
  function MaxInteger(i1: Option<Int32>, i2: Option<Int32>): (r: Option<Int32>)
    ensures r == i1 || r == i2
    ensures NullLowestAtMost(i1, r) && NullLowestAtMost(i2, r)
  {
    if i1.Some? && i2.Some? then (if i1.value > i2.value then i1 else i2)
    else if i1.None? then i2 else i1
  }

  /** `max(int, int)`. */
  function MaxInt(i1: Int32, i2: Int32): (r: Int32)
    ensures r == i1 || r == i2
    ensures i1 <= r && i2 <= r
  {
    if i1 > i2 then i1 else i2
  }

  /**
   * `min(Integer, Integer)`: null if either is null, else the smaller value;
   * this is the minimum in the order where null is below every int.
   */
  function MinInteger(i1: Option<Int32>, i2: Option<Int32>): (r: Option<Int32>)
    ensures r == i1 || r == i2
    ensures NullLowestAtMost(r, i1) && NullLowestAtMost(r, i2)
    ensures r.None? <==> i1.None? || i2.None?
  {
    if i1.Some? && i2.Some? then Some(MinInt(i1.value, i2.value)) else None
  }

  /** `min(int, int)`. */
  function MinInt(i1: Int32, i2: Int32): (r: Int32)
    ensures r == i1 || r == i2
    ensures r <= i1 && r <= i2
  {
    if i1 < i2 then i1 else i2
  }

  /** `String.equalsIgnoreCase`, with case folding restricted to ASCII letters. */
  predicate EqualsIgnoreCase(s1: string, s2: string)
  {
    |s1| == |s2| && forall i :: 0 <= i < |s1| ==> s1[i] == s2[i] || UpperAscii(s1[i]) == UpperAscii(s2[i])
  }

  /** `safeEqualsIgnoreCase`: two nulls are equal, one null is not, else `equalsIgnoreCase`. */
  function SafeEqualsIgnoreCase(s1: Option<string>, s2: Option<string>): (r: bool)
    ensures s1.None? && s2.None? ==> r
    ensures s1.None? != s2.None? ==> !r
    ensures s1.Some? && s2.Some? ==> (r <==> ToUpper(s1.value) == ToUpper(s2.value))
  {
    if s1 == s2 then true
    else if s1.Some? && s2.None? then false
    else if s1.None? then false
    else
      assert EqualsIgnoreCase(s1.value, s2.value) <==> ToUpper(s1.value) == ToUpper(s2.value) by {
        if ToUpper(s1.value) == ToUpper(s2.value) {
          forall i | 0 <= i < |s1.value| ensures UpperAscii(s1.value[i]) == UpperAscii(s2.value[i]) {
            assert ToUpper(s1.value)[i] == ToUpper(s2.value)[i];
          }
        }
      }
      EqualsIgnoreCase(s1.value, s2.value)
  }

  /** `nullOrEmpty`. */
  function NullOrEmpty(value: Option<string>): (r: bool)
    ensures r <==> value.None? || |value.value| == 0
  {
    value.None? || value.value == ""
  }

  /** Every null-or-empty string is blank; the converse fails for "  ". */
  lemma NullOrEmptyIsBlank(value: Option<string>)
    ensures NullOrEmpty(value) ==> StringUtils.IsBlank(value)
    ensures !NullOrEmpty(Some("  ")) && StringUtils.IsBlank(Some("  "))
  {
  }

  /** `getAbsoluteResourceName`: the package name with `.` turned into `/`, a `/`, then the name. */
  function GetAbsoluteResourceName(name: string, packageName: string): (r: string)
    ensures |r| == |packageName| + 1 + |name|
    ensures r[|packageName|] == '/' && r[|packageName| + 1..] == name
    ensures forall i :: 0 <= i < |packageName| ==> r[i] != '.'
  {
    ReplaceChar(packageName, '.', '/') + "/" + name
  }

  /** A package name (which has no `/`) is recovered from the resource name. */
  lemma {:induction false} AbsoluteResourceNameRecoversPackage(name: string, packageName: string)
    requires forall i :: 0 <= i < |packageName| ==> packageName[i] != '/'
    ensures ReplaceChar(GetAbsoluteResourceName(name, packageName)[..|packageName|], '/', '.') == packageName
  {
    var r := GetAbsoluteResourceName(name, packageName);
    assert r[..|packageName|] == ReplaceChar(packageName, '.', '/');
    var back := ReplaceChar(r[..|packageName|], '/', '.');
    assert forall i :: 0 <= i < |packageName| ==> back[i] == packageName[i];
  }

  /** `safeEquals`, identical to the shared helper's. */
  method SafeEquals(o1: CommonUtils.Obj, o2: CommonUtils.Obj) returns (r: bool)
    ensures r <==> o1 == o2
  {
    r := CommonUtils.SafeEquals(o1, o2);
  }

  /** `getRootCause`, identical to the shared helper's. */
  method GetRootCause(t: CommonUtils.Throwable) returns (root: CommonUtils.Throwable)
    ensures root == CommonUtils.CauseChain(t)[|CommonUtils.CauseChain(t)| - 1]
    ensures CommonUtils.GetCause(root).None?
  {
    root := CommonUtils.GetRootCause(t);
  }
}
