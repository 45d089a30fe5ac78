/**
 * `BooleanIntegerUT`: the Hibernate user type that stores a `Boolean` in an
 * SQL INTEGER column as 0 or 1, with SQL NULL for null.
 */
module BooleanIntegerUT {
  import opened Jdk

  /** The `SQLException` `nullSafeGet` throws for a value other than 0 and 1. */
  datatype SqlError = IllegalNumericBoolean(value: Int32)

  /**
   * `nullSafeGet`: the column as `getInt` / `wasNull` see it (None is SQL
   * NULL). NULL reads as null, 0 as false, 1 as true, anything else fails.
   */
  function NullSafeGet(column: Option<Int32>): (r: Result<Option<bool>, SqlError>)
    ensures column.None? ==> r == Ok(None)
    ensures column.Some? ==> (r.Err? <==> column.value != 0 && column.value != 1)
    ensures r.Err? ==> column.Some? && r.error == IllegalNumericBoolean(column.value)
    ensures r.Ok? && r.value.Some? ==> column == Some(if r.value.value then 1 else 0)
  {
    match column
    case None => Ok(None)
    case Some(value) =>
      if value == 0 then Ok(Some(false))
      else if value == 1 then Ok(Some(true))
      else Err(IllegalNumericBoolean(value))
  }

  /** `nullSafeSet`: null is bound as SQL NULL, true as 1 and false as 0. */
  function NullSafeSet(value: Option<bool>): (r: Option<Int32>)
    ensures r.None? <==> value.None?
    ensures r.Some? ==> (r.value == 1 <==> value.value) && (r.value == 0 <==> !value.value)
  {
    match value
    case None => None
    case Some(b) => Some(if b then 1 else 0)
  }

  /** Reading back what was written gives the original value, null included. */
  lemma GetOfSet(value: Option<bool>)
    ensures NullSafeGet(NullSafeSet(value)) == Ok(value)
  {
  }

  /** Every column `nullSafeGet` accepts is the one `nullSafeSet` writes for its result. */
  lemma SetOfGet(column: Option<Int32>)
    requires NullSafeGet(column).Ok?
    ensures NullSafeSet(NullSafeGet(column).value) == column
  {
  }

  /** `equals`: a null first argument is never equal, not even to null. */
  function Equals(value1: Option<bool>, value2: Option<bool>): (r: bool)
    ensures value1.None? ==> !r
    ensures value1.Some? ==> (r <==> value1 == value2)
  {
    value1.Some? && value2.Some? && value1.value == value2.value
  }
}
