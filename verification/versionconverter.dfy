/**
 * `VersionConverter`: the lenient text form of domain versions stored in
 * configuration and in the schema history.
 */
module VersionConverter {
  import opened Jdk
  import opened DomainVersion
  import V = Version

  function IllegalFormat(value: string): string
  {
    "Illegal format of Version value: " + value
  }

  /**
   * `fromString`: null gives null; otherwise split on `.` and `-`; no piece
   * at all, or a non-`int` among the first three pieces, is an
   * `IllegalArgumentException`. The first one to three pieces set the
   * numbers present, and only exactly four pieces set the qualifier.
   */
  function FromString(value: Option<string>): (r: Result<Option<Version>, string>)
    ensures value.None? ==> r == Ok(None)
    ensures value.Some? && |Split(value.value, V.Separators)| == 0 ==> r == Err(IllegalFormat(value.value))
    ensures value.Some? ==>
              var values := Split(value.value, V.Separators);
              r.Ok? <==> |values| >= 1 && forall k :: 0 <= k < 3 && k < |values| ==> ParseInt(values[k]).Some?
    ensures value.Some? && r.Ok? ==>
              var values := Split(value.value, V.Separators);
              var n := |values|;
              var v := r.value;
              v.Some? && v.value.major == Some(ParseInt(values[0]).value)
              && v.value.minor == (if n >= 2 then Some(ParseInt(values[1]).value) else None)
              && v.value.maintenance == (if n >= 3 then Some(ParseInt(values[2]).value) else None)
              && v.value.qualifier == (if n == 4 then Some(values[3]) else None)
    ensures value.Some? && r.Err? ==> r.error == IllegalFormat(value.value)
  {
    if value.None? then Ok(None)
    else
      var values := Split(value.value, V.Separators);
      if |values| < 1 then Err(IllegalFormat(value.value))
      else
        var major := ParseInt(values[0]);
        var minor := if |values| >= 2 then ParseInt(values[1]) else Some(0);
        var maintenance := if |values| >= 3 then ParseInt(values[2]) else Some(0);
        if major.None? || minor.None? || maintenance.None? then Err(IllegalFormat(value.value))
        else
          Ok(Some(Version(
            Some(major.value),
            if |values| >= 2 then Some(minor.value) else None,
            if |values| >= 3 then Some(maintenance.value) else None,
            if |values| == 4 then Some(values[3]) else None)))
  }

  /** `StringBuilder.append(Integer)`: a null Integer prints as "null". */
  function IntegerToString(i: Option<Int32>): string
  {
    if i.Some? then IntToString(i.value) else "null"
  }

  /** `toString`: null gives null; else the major, then `.minor`, `.maintenance` and `-qualifier` for those present. */
  function ToString(version: Option<Version>): (r: Option<string>)
    ensures r.None? <==> version.None?
  {
    if version.None? then None
    else
      var v := version.value;
      Some(IntegerToString(v.major)
           + (if v.minor.Some? then "." + IntToString(v.minor.value) else "")
           + (if v.maintenance.Some? then "." + IntToString(v.maintenance.value) else "")
           + (if v.qualifier.Some? then "-" + v.qualifier.value else ""))
  }

  /** `fromString(toString(v)) == v` when all three numbers are set and non-negative and the qualifier reads back. */
  lemma FromStringToString(v: Version)
    requires v.major.Some? && v.minor.Some? && v.maintenance.Some?
    requires v.major.value >= 0 && v.minor.value >= 0 && v.maintenance.value >= 0
    requires V.QualifierParsable(v.qualifier)
    ensures FromString(ToString(Some(v))) == Ok(Some(v))
  {
    var a, b, c := IntToString(v.major.value), IntToString(v.minor.value), IntToString(v.maintenance.value);
    V.NatToStringHasNoSeparator(v.major.value);
    V.NatToStringHasNoSeparator(v.minor.value);
    V.NatToStringHasNoSeparator(v.maintenance.value);
    V.SplitOfPrinted(a, b, c, v.qualifier);
    assert ToString(Some(v)).value == a + "." + b + "." + c + (if v.qualifier.Some? then "-" + v.qualifier.value else "");
    ParseIntOfIntToString(v.major.value);
    ParseIntOfIntToString(v.minor.value);
    ParseIntOfIntToString(v.maintenance.value);
  }

  /** A single piece sets only the major number. */
  lemma SinglePieceSetsMajorOnly()
    ensures FromString(Some("7")) == Ok(Some(Version(Some(7), None, None, None)))
  {
    assert NoneIn("7", V.Separators);
    assert DigitsValue("7") == 7;
  }

  /** Only separators: no piece survives, which is an error. */
  lemma OnlySeparatorsRejected()
    ensures FromString(Some("...")) == Err(IllegalFormat("..."))
  {
    var S := V.Separators;
    assert "..." == "" + ['.'] + "..";
    assert ".." == "" + ['.'] + ".";
    assert "." == "" + ['.'] + "";
    PiecesOfSeparated("", '.', "", S);
    PiecesOfSeparated("", '.', ".", S);
    PiecesOfSeparated("", '.', "..", S);
    assert "..."[0] == '.';
    assert Split("...", S) == [];
  }
}
