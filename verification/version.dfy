/**
 * The product and schema version value of the shared library:
 * `<major>.<minor>.<maintenance>[-qualifier]`, with its constructor checks,
 * parser, printer, equality and total order.
 */
module Version {
  import opened Jdk
  import CommonUtils

  datatype Version = Version(major: Int32, minor: Int32, maintenance: Int32, qualifier: Option<string>)

  /** The no-argument constructor: 0.0.0 without a qualifier. */
  const Zero: Version := Version(0, 0, 0, None)

  /** The characters `parseVersion` splits on (the regex `[.-]`). */
  const Separators: set<char> := {'.', '-'}

  const FormatHint: string := ". Expected version number in the <major>.<minor>.<maintenance>[-qualifier] format."

  /** The 4-argument constructor: every numeric component must be non-negative, checked in order. */
  function Create(major: Int32, minor: Int32, maintenance: Int32, qualifier: Option<string>): (r: Result<Version, string>)
    ensures r.Ok? <==> major >= 0 && minor >= 0 && maintenance >= 0
    ensures r.Ok? ==> r.value == Version(major, minor, maintenance, qualifier)
    ensures major < 0 ==> r == Err("Major number must be >= 0")
    ensures major >= 0 && minor < 0 ==> r == Err("Minor number must be >= 0.")
  {
    if major < 0 then Err("Major number must be >= 0")
    else if minor < 0 then Err("Minor number must be >= 0.")
    else if maintenance < 0 then Err("Maintenance number must be >= 0")
    else Ok(Version(major, minor, maintenance, qualifier))
  }

  /** A qualifier `toString` can print so that `parseVersion` reads it back. */
  predicate QualifierParsable(q: Option<string>)
  {
    q.None? || (|q.value| > 0 && NoneIn(q.value, Separators))
  }

  /** What `parseVersion` can produce, and what it reads back from `toString`. */
  predicate WellFormed(v: Version)
  {
    v.major >= 0 && v.minor >= 0 && v.maintenance >= 0 && QualifierParsable(v.qualifier)
  }

  /**
   * `parseVersion`: split on `.` and `-`; exactly 3 or 4 pieces; the first
   * three are `int`s, the fourth is the qualifier. Any other input is an
   * `IllegalArgumentException`, here `Err` with its message.
   */
  function ParseVersion(versionStr: string): (r: Result<Version, string>)
    ensures var values := Split(versionStr, Separators);
            r.Ok? <==> |values| in {3, 4} && forall k :: 0 <= k < 3 ==> ParseInt(values[k]).Some?
    ensures var values := Split(versionStr, Separators);
            r.Ok? ==> r.value.major == ParseInt(values[0]).value && r.value.minor == ParseInt(values[1]).value
                      && r.value.maintenance == ParseInt(values[2]).value
                      && r.value.qualifier == (if |values| == 4 then Some(values[3]) else None)
    ensures r.Err? ==> r.error == "Illegal format of version number: " + versionStr + FormatHint
  {
    var values := Split(versionStr, Separators);
    if |values| != 3 && |values| != 4 then Err("Illegal format of version number: " + versionStr + FormatHint)
    else
      match (ParseInt(values[0]), ParseInt(values[1]), ParseInt(values[2]))
      case (Some(major), Some(minor), Some(maintenance)) =>
        Ok(Version(major, minor, maintenance, if |values| == 4 then Some(values[3]) else None))
      case _ => Err("Illegal format of version number: " + versionStr + FormatHint)
  }

  /** `toString`: `major.minor.maintenance`, then `-qualifier` when there is one. */
  function ToString(v: Version): (r: string)
  {
    IntToString(v.major) + "." + IntToString(v.minor) + "." + IntToString(v.maintenance)
    + (if v.qualifier.Some? then "-" + v.qualifier.value else "")
  }

  /** A piece free of `-` parses, if at all, to a non-negative number. */
  lemma ParseIntOfPieceNonNegative(s: string)
    requires NoneIn(s, Separators)
    ensures ParseInt(s).Some? ==> ParseInt(s).value >= 0
  {
    if |s| > 0 {
      assert s[0] != '-';
    }
  }

  /** Everything `parseVersion` accepts is well formed: no negative number, no empty or split qualifier. */
  lemma ParseVersionWellFormed(versionStr: string)
    ensures ParseVersion(versionStr).Ok? ==> WellFormed(ParseVersion(versionStr).value)
  {
    var values := Split(versionStr, Separators);
    if ParseVersion(versionStr).Ok? {
      ParseIntOfPieceNonNegative(values[0]);
      ParseIntOfPieceNonNegative(values[1]);
      ParseIntOfPieceNonNegative(values[2]);
      if |values| == 4 {
        assert !NoneIn(versionStr, Separators);
        assert values == DropTrailingEmpty(Pieces(versionStr, Separators));
        assert values[3] != "";
      }
    }
  }

  lemma NatToStringHasNoSeparator(n: nat)
    ensures NoneIn(NatToString(n), Separators)
  {
    var s := NatToString(n);
    assert forall i :: 0 <= i < |s| ==> IsDigit(s[i]);
  }

  /** The maintenance number and the optional qualifier cut into their pieces. */
  lemma PiecesOfPrintedTail(c: string, q: Option<string>)
    requires NoneIn(c, Separators) && QualifierParsable(q)
    ensures Pieces(c + (if q.Some? then "-" + q.value else ""), Separators) == [c] + (if q.Some? then [q.value] else [])
  {
    if q.Some? {
      PiecesOfNoSeparator(q.value, Separators);
      assert c + ("-" + q.value) == c + ['-'] + q.value;
      PiecesOfSeparated(c, '-', q.value, Separators);
    } else {
      PiecesOfNoSeparator(c, Separators);
      assert c + "" == c;
    }
  }

  /** How `split("[.-]")` cuts a printed version: the three numbers and the qualifier. */
  lemma {:induction false} SplitOfPrinted(a: string, b: string, c: string, q: Option<string>)
    requires NoneIn(a, Separators) && NoneIn(b, Separators) && NoneIn(c, Separators)
    requires |c| > 0 && QualifierParsable(q)
    ensures Split(a + "." + b + "." + c + (if q.Some? then "-" + q.value else ""), Separators)
            == [a, b, c] + (if q.Some? then [q.value] else [])
  {
    var tail: string := if q.Some? then "-" + q.value else "";
    var rest: seq<string> := [c] + (if q.Some? then [q.value] else []);
    PiecesOfPrintedTail(c, q);
    SplitOfDotted(a, b, c + tail, rest);
    assert a + "." + b + "." + c + tail == a + "." + b + "." + (c + tail);
  }

  /** `a.b.tail` is cut after `a` and after `b`, then as the tail is. */
  lemma SplitOfDotted(a: string, b: string, tail: string, rest: seq<string>)
    requires NoneIn(a, Separators) && NoneIn(b, Separators)
    requires Pieces(tail, Separators) == rest && |rest| > 0 && rest[|rest| - 1] != ""
    ensures Split(a + "." + b + "." + tail, Separators) == [a, b] + rest
  {
    PiecesOfDotted(a, b, tail);
    var s := a + "." + b + "." + tail;
    assert s[|a|] == '.';
    assert DropTrailingEmpty([a, b] + rest) == [a, b] + rest;
  }

  lemma PiecesOfDotted(a: string, b: string, tail: string)
    requires NoneIn(a, Separators) && NoneIn(b, Separators)
    ensures Pieces(a + "." + b + "." + tail, Separators) == [a, b] + Pieces(tail, Separators)
  {
    PiecesOfSeparated(b, '.', tail, Separators);
    DottedAssociates(a, b, tail);
    PiecesOfSeparated(a, '.', b + ['.'] + tail, Separators);
    ConsTwo(a, b, Pieces(tail, Separators));
  }

  lemma ConsTwo(a: string, b: string, p: seq<string>)
    ensures [a] + ([b] + p) == [a, b] + p
  {
  }

  lemma DottedAssociates(a: string, b: string, tail: string)
    ensures a + "." + b + "." + tail == a + ['.'] + (b + ['.'] + tail)
  {
  }

  /** `parseVersion(v.toString())` gives back `v` for every well-formed version. */
  lemma ParseToString(v: Version)
    requires WellFormed(v)
    ensures ParseVersion(ToString(v)) == Ok(v)
  {
    NatToStringHasNoSeparator(v.major);
    NatToStringHasNoSeparator(v.minor);
    NatToStringHasNoSeparator(v.maintenance);
    SplitOfPrinted(IntToString(v.major), IntToString(v.minor), IntToString(v.maintenance), v.qualifier);
    ParseIntOfIntToString(v.major);
    ParseIntOfIntToString(v.minor);
    ParseIntOfIntToString(v.maintenance);
  }

  /** `equals`: all four fields equal, the qualifier compared null-safely. */
  function Equals(v1: Version, v2: Version): (r: bool)
    ensures r <==> v1 == v2
  {
    v1.major == v2.major && v1.minor == v2.minor && v1.maintenance == v2.maintenance
    && v1.qualifier == v2.qualifier
  }

  /**
   * `compareTo`: -1 or 1 on the first differing number, in the order major,
   * minor, maintenance; then the null-aware `compareTo` of the qualifiers.
   */
  function CompareTo(v1: Version, v2: Version): (r: int)
    ensures r == 0 <==> Equals(v1, v2)
    ensures v1.major < v2.major ==> r == -1
    ensures (v1.major, v1.minor, v1.maintenance) != (v2.major, v2.minor, v2.maintenance) ==> r in {-1, 1}
  {
    if v1.major < v2.major then -1
    else if v1.major > v2.major then 1
    else if v1.minor < v2.minor then -1
    else if v1.minor > v2.minor then 1
    else if v1.maintenance < v2.maintenance then -1
    else if v1.maintenance > v2.maintenance then 1
    else CommonUtils.SafeCompareStrings(v1.qualifier, v2.qualifier)
  }

  lemma CompareToAntisymmetric(v1: Version, v2: Version)
    ensures CompareTo(v2, v1) == -CompareTo(v1, v2)
  {
    CommonUtils.SafeCompareStringsAntisymmetric(v1.qualifier, v2.qualifier);
  }

  lemma CompareToTransitive(v1: Version, v2: Version, v3: Version)
    requires CompareTo(v1, v2) <= 0 && CompareTo(v2, v3) <= 0
    ensures CompareTo(v1, v3) <= 0
  {
    if (v1.major, v1.minor, v1.maintenance) == (v2.major, v2.minor, v2.maintenance) == (v3.major, v3.minor, v3.maintenance) {
      CommonUtils.SafeCompareStringsTransitive(v1.qualifier, v2.qualifier, v3.qualifier);
    }
  }

  /** A version without qualifier sorts below the same numbers with any qualifier. */
  lemma ReleaseBelowQualified(major: Int32, minor: Int32, maintenance: Int32, q: string)
    ensures CompareTo(Version(major, minor, maintenance, None), Version(major, minor, maintenance, Some(q))) == -1
  {
  }
}
