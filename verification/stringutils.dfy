/** Blankness tests of the `StringUtils` class. */
module StringUtils {
  import opened Jdk

  /**
   * `isBlank`: null, empty, or nothing left after `trim`, which is the same
   * as every character being at most U+0020.
   */
  function IsBlank(input: Option<string>): (r: bool)
    ensures input.None? ==> r
    ensures input == Some("") ==> r
    ensures input.Some? ==> (r <==> forall i :: 0 <= i < |input.value| ==> IsTrimmed(input.value[i]))
  {
    input.None? || input.value == "" || Trim(input.value) == ""
  }

  /** `isNotBlank`: a non-null string with some character above U+0020. */
  function IsNotBlank(input: Option<string>): (r: bool)
    ensures r <==> !IsBlank(input)
    ensures r <==> input.Some? && exists i :: 0 <= i < |input.value| && !IsTrimmed(input.value[i])
  {
    !IsBlank(input)
  }
}
