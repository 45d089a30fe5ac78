/**
 * The null-aware helpers of the shared `CommonUtils` class: deep equality,
 * null-aware comparison, cause-chain walking and the "frames in common"
 * count used when a cause's stack trace is printed.
 */
module CommonUtils {
  import opened Jdk

  /**
   * A Java value as `safeEquals` sees it: `null`, an object whose `equals`
   * compares its class and state, or an array with a component type.
   */
  datatype Obj = Null | Value(cls: string, state: string) | Array(componentType: string, elems: seq<Obj>)

  /**
   * `safeEquals`: two nulls are equal, null never equals a non-null value,
   * arrays are compared by length, component type and element by element
   * (recursively), and everything else by `equals`. Reference identity
   * implies equality, so only its both-null case is checked first.
   */
  method SafeEquals(o1: Obj, o2: Obj) returns (r: bool)
    ensures r <==> o1 == o2
    decreases o1
  {
    if o1.Null? && o2.Null? {
      return true;
    }
    if !o1.Null? && o2.Null? {
      return false;
    }
    if o1.Null? {
      return false;
    }
    if o1.Array? && o2.Array? {
      if |o1.elems| != |o2.elems| {
        return false;
      }
      if o1.componentType != o2.componentType {
        return false;
      }
      var i := 0;
      while i < |o1.elems|
        invariant 0 <= i <= |o1.elems|
        invariant o1.elems[..i] == o2.elems[..i]
      {
        var same := SafeEquals(o1.elems[i], o2.elems[i]);
        if !same {
          assert o1.elems[i] != o2.elems[i];
          return false;
        }
        assert o1.elems[..i + 1] == o1.elems[..i] + [o1.elems[i]];
        assert o2.elems[..i + 1] == o2.elems[..i] + [o2.elems[i]];
        i := i + 1;
      }
      assert o1.elems == o1.elems[..i] && o2.elems == o2.elems[..i];
      return true;
    }
    // Object.equals: value objects compare class and state; an array equals only itself.
    return o1.Value? && o2.Value? && o1.cls == o2.cls && o1.state == o2.state;
  }

  /**
   * `safeCompare`: the same reference (two nulls included) compares 0, a
   * present value is above null, and two present values use `compareTo`.
   */
  function SafeCompare<T(==)>(o1: Option<T>, o2: Option<T>, compareTo: (T, T) -> int): (r: int)
    ensures o1.Some? && o2.None? ==> r == 1
    ensures o1.None? && o2.Some? ==> r == -1
    ensures o1 == o2 ==> r == 0
    ensures o1.Some? && o2.Some? && o1 != o2 ==> r == compareTo(o1.value, o2.value)
  {
    if o1 == o2 then 0
    else if o1.Some? && o2.None? then 1
    else if o1.None? then -1
    else compareTo(o1.value, o2.value)
  }

  /** With a consistent `compareTo`, `safeCompare` is 0 exactly for equal arguments. */
  lemma SafeCompareZeroIff<T>(o1: Option<T>, o2: Option<T>, compareTo: (T, T) -> int)
    requires forall x, y :: compareTo(x, y) == 0 <==> x == y
    ensures SafeCompare(o1, o2, compareTo) == 0 <==> o1 == o2
  {
    if o1.Some? && o2.Some? {
      assert compareTo(o1.value, o2.value) == 0 <==> o1.value == o2.value;
    }
  }

  /** With an antisymmetric `compareTo`, so is `safeCompare`. */
  lemma SafeCompareAntisymmetric<T>(o1: Option<T>, o2: Option<T>, compareTo: (T, T) -> int)
    requires forall x, y :: compareTo(y, x) == -compareTo(x, y)
    ensures SafeCompare(o2, o1, compareTo) == -SafeCompare(o1, o2, compareTo)
  {
    if o1.Some? && o2.Some? && o1 != o2 {
      assert compareTo(o2.value, o1.value) == -compareTo(o1.value, o2.value);
    }
  }

  /** String instance of `safeCompare` (a qualifier, a path). */
  function SafeCompareStrings(s1: Option<string>, s2: Option<string>): (r: int)
    ensures s1.Some? && s2.Some? ==> r == CompareTo(s1.value, s2.value)
    ensures r == 0 <==> s1 == s2
  {
    SafeCompare(s1, s2, CompareTo)
  }

  lemma SafeCompareStringsAntisymmetric(s1: Option<string>, s2: Option<string>)
    ensures SafeCompareStrings(s2, s1) == -SafeCompareStrings(s1, s2)
  {
    if s1.Some? && s2.Some? {
      CompareToAntisymmetric(s1.value, s2.value);
    }
  }

  lemma SafeCompareStringsTransitive(s1: Option<string>, s2: Option<string>, s3: Option<string>)
    requires SafeCompareStrings(s1, s2) <= 0 && SafeCompareStrings(s2, s3) <= 0
    ensures SafeCompareStrings(s1, s3) <= 0
  {
    if s1.Some? && s2.Some? && s3.Some? {
      CompareToTransitive(s1.value, s2.value, s3.value);
    }
  }

  // ---------------------------------------------------------------------
  // Cause chains
  // ---------------------------------------------------------------------

  /**
   * A throwable as far as cause walking is concerned: an `SQLException`
   * chains through `getNextException`, every other throwable through `getCause`.
   */
  datatype Throwable = Throwable(message: string, isSqlException: bool, cause: Option<Throwable>, nextException: Option<Throwable>)

  /** `getCause`: the next exception of an `SQLException`, the standard cause otherwise. */
  function GetCause(t: Throwable): (r: Option<Throwable>)
    ensures t.isSqlException ==> r == t.nextException
    ensures !t.isSqlException ==> r == t.cause
  {
    if t.isSqlException then t.nextException else t.cause
  }

  /** The throwables `getRootCause` visits, starting with `t`. */
  function CauseChain(t: Throwable): (r: seq<Throwable>)
    ensures |r| >= 1 && r[0] == t
    decreases t
  {
    [t] + (if t.isSqlException then
             (match t.nextException case None => [] case Some(c) => CauseChain(c))
           else
             (match t.cause case None => [] case Some(c) => CauseChain(c)))
  }

  /** Every throwable of the chain is followed by its cause, and only the last has none. */
  lemma {:induction false} CauseChainLinks(t: Throwable, k: nat)
    requires k < |CauseChain(t)|
    ensures var chain := CauseChain(t);
            if k + 1 < |chain| then GetCause(chain[k]) == Some(chain[k + 1]) else GetCause(chain[k]).None?
    decreases t
  {
    if k > 0 {
      var c := GetCause(t).value;
      CauseChainLinks(c, k - 1);
    }
  }

  /** `getRootCause`: follows `getCause` until it is null and returns the last throwable reached. */
  method GetRootCause(t: Throwable) returns (root: Throwable)
    ensures root == CauseChain(t)[|CauseChain(t)| - 1]
    ensures GetCause(root).None?
  {
    root := t;
    while GetCause(root).Some?
      invariant CauseChain(root)[|CauseChain(root)| - 1] == CauseChain(t)[|CauseChain(t)| - 1]
      decreases root
    {
      root := GetCause(root).value;
    }
    CauseChainLinks(root, 0);
  }

  // ---------------------------------------------------------------------
  // Frames in common
  // ---------------------------------------------------------------------

  /**
   * The count of stack frames a cause shares with the trace of the exception
   * it caused, found by walking both traces from their ends: the length of
   * their longest common suffix.
   */
  method FramesInCommon(trace: seq<string>, causedTrace: seq<string>) returns (framesInCommon: nat)
    ensures framesInCommon <= |trace| && framesInCommon <= |causedTrace|
    ensures trace[|trace| - framesInCommon..] == causedTrace[|causedTrace| - framesInCommon..]
    ensures framesInCommon < |trace| && framesInCommon < |causedTrace| ==>
              trace[|trace| - framesInCommon - 1] != causedTrace[|causedTrace| - framesInCommon - 1]
  {
    var m := |trace| - 1;
    var n := |causedTrace| - 1;
    while m >= 0 && n >= 0 && trace[m] == causedTrace[n]
      invariant -1 <= m < |trace| && -1 <= n < |causedTrace|
      invariant |trace| - 1 - m == |causedTrace| - 1 - n
      invariant forall k :: m < k < |trace| ==> trace[k] == causedTrace[k - m + n]
    {
      m := m - 1;
      n := n - 1;
    }
    framesInCommon := |trace| - 1 - m;
    ghost var common, causedCommon := trace[m + 1..], causedTrace[n + 1..];
    assert forall i :: 0 <= i < |common| ==> common[i] == trace[m + 1 + i] == causedTrace[n + 1 + i] == causedCommon[i];
    assert common == causedCommon;
  }
}
