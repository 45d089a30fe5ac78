/**
 * `DatabaseSchemaManager`: decides at start-up whether the database schema
 * must be initialized, upgraded, formally bumped, left alone or refused, and
 * selects the SQL scripts to run. Resource listing is a parameter that maps
 * a pattern such as `root/x/y.sql` to the URL paths it finds (`None` for an
 * `IOException`); URLs are represented by their paths.
 */
module DatabaseSchemaManager {
  import opened Jdk
  import DV = DomainVersion
  import VC = VersionComparator
  import VConv = VersionConverter
  import DSE = DatabaseScriptExecutor
  import Dao = DatabaseSchemaDao

  /** `ResourcePatternResolver.getResources` followed by `getURL().getPath()`. */
  type Listing = string -> Option<seq<string>>

  /** The exceptions that leave `maybeInitializeOrUpgradeDatabaseSchema`. */
  datatype SchemaError =
    | DaoError(message: string)            // DaoException
    | Downgrade(current: DV.Version, desired: DV.Version) // DaoException whose message is DowngradeMessage(current, desired)
    | NumberFormat(input: string)          // NumberFormatException from Integer.parseInt
    | ScriptFailed(error: DSE.ScriptError) // the SQLException of the script executor

  const INIT_LISTING_ERROR: string := "Error getting database schema SQL init script URLs."
  const UPGRADE_LISTING_ERROR: string := "Error getting database schema SQL upgrade script URLs."

  // ---------------------------------------------------------------------
  // Sorting URLs by path (Collections.sort with a String.compareTo comparator)
  // ---------------------------------------------------------------------

  predicate SortedPaths(s: seq<string>)
  {
    forall i, j :: 0 <= i < j < |s| ==> CompareTo(s[i], s[j]) <= 0
  }

  /** A lower bound of a sorted sequence may be put in front of it. */
  lemma PrependSorted(h: string, s: seq<string>)
    requires SortedPaths(s)
    requires forall j :: 0 <= j < |s| ==> CompareTo(h, s[j]) <= 0
    ensures SortedPaths([h] + s)
  {
    var r := [h] + s;
    forall i, j | 0 <= i < j < |r| ensures CompareTo(r[i], r[j]) <= 0 {
      if i > 0 {
        assert r[i] == s[i - 1] && r[j] == s[j - 1];
      } else {
        assert r[j] == s[j - 1];
      }
    }
  }

  /** A path that is at most the first of a sorted sequence is at most all of it. */
  lemma BelowFirstPath(p: string, s: seq<string>)
    requires SortedPaths(s) && |s| > 0 && CompareTo(p, s[0]) <= 0
    ensures forall j :: 0 <= j < |s| ==> CompareTo(p, s[j]) <= 0
  {
    forall j | 0 <= j < |s| ensures CompareTo(p, s[j]) <= 0 {
      if j > 0 {
        CompareToTransitive(p, s[0], s[j]);
      }
    }
  }

  /** Inserting `p` into a sorted sequence keeps it sorted and adds exactly `p`. */
  function InsertPath(p: string, s: seq<string>): (r: seq<string>)
    requires SortedPaths(s)
    ensures SortedPaths(r)
    ensures multiset(r) == multiset(s) + multiset{p}
  {
    if |s| == 0 then [p]
    else if CompareTo(p, s[0]) <= 0 then
      BelowFirstPath(p, s);
      PrependSorted(p, s);
      [p] + s
    else
      assert s == [s[0]] + s[1..];
      SortedTail(s);
      var rest := InsertPath(p, s[1..]);
      CompareToAntisymmetric(p, s[0]);
      FirstBelowTail(s);
      BelowInserted(s[0], p, s[1..], rest);
      PrependSorted(s[0], rest);
      [s[0]] + rest
  }

  /** The first of a sorted sequence is at most every later element. */
  lemma FirstBelowTail(s: seq<string>)
    requires SortedPaths(s) && |s| > 0
    ensures forall j :: 0 <= j < |s[1..]| ==> CompareTo(s[0], s[1..][j]) <= 0
  {
    forall j | 0 <= j < |s[1..]| ensures CompareTo(s[0], s[1..][j]) <= 0 {
      assert s[1..][j] == s[j + 1];
    }
  }

  /** A lower bound of `t` and of `p` bounds every element of a permutation of `t` plus `p`. */
  lemma BelowInserted(h: string, p: string, t: seq<string>, rest: seq<string>)
    requires forall j :: 0 <= j < |t| ==> CompareTo(h, t[j]) <= 0
    requires CompareTo(h, p) <= 0
    requires multiset(rest) == multiset(t) + multiset{p}
    ensures forall j :: 0 <= j < |rest| ==> CompareTo(h, rest[j]) <= 0
  {
    forall j | 0 <= j < |rest| ensures CompareTo(h, rest[j]) <= 0 {
      assert rest[j] in multiset(rest);
      if rest[j] != p {
        assert rest[j] in multiset(t);
        var k :| 0 <= k < |t| && t[k] == rest[j];
      }
    }
  }

  /** `Collections.sort(urls, byPath)`: the paths in `String.compareTo` order. */
  function SortPaths(s: seq<string>): (r: seq<string>)
    ensures SortedPaths(r)
    ensures multiset(r) == multiset(s)
  {
    if |s| == 0 then []
    else
      assert s == [s[0]] + s[1..];
      InsertPath(s[0], SortPaths(s[1..]))
  }

  /** The first of a sorted sequence is at most each of its elements. */
  lemma FirstPathLowest(a: seq<string>, x: string)
    requires SortedPaths(a) && x in a
    ensures CompareTo(a[0], x) <= 0
  {
    var i :| 0 <= i < |a| && a[i] == x;
    if i == 0 {
      assert CompareTo(x, x) == 0;
    }
  }

  lemma SortedTail(a: seq<string>)
    requires SortedPaths(a) && |a| > 0
    ensures SortedPaths(a[1..])
  {
    assert forall i :: 0 <= i < |a| - 1 ==> a[1..][i] == a[i + 1];
  }

  /**
   * The sorted order of a multiset of paths is unique, so the stable merge
   * sort of `Collections.sort` and `SortPaths` give the same list.
   */
  lemma {:induction false} SortedPermutationsEqual(a: seq<string>, b: seq<string>)
    requires SortedPaths(a) && SortedPaths(b) && multiset(a) == multiset(b)
    ensures a == b
  {
    if |a| == 0 {
      assert |b| == |multiset(b)| == 0;
    } else {
      SameFirstPath(a, b);
      TailMultiset(a);
      TailMultiset(b);
      SortedTail(a);
      SortedTail(b);
      SortedPermutationsEqual(a[1..], b[1..]);
      assert a == [a[0]] + a[1..] && b == [b[0]] + b[1..];
    }
  }

  /** Two sorted orders of one multiset of paths start with the same path. */
  lemma SameFirstPath(a: seq<string>, b: seq<string>)
    requires SortedPaths(a) && SortedPaths(b) && multiset(a) == multiset(b) && |a| > 0
    ensures |b| > 0 && a[0] == b[0]
  {
    assert |b| == |multiset(b)| == |a|;
    assert a[0] in multiset(b) && b[0] in multiset(a);
    FirstPathLowest(a, b[0]);
    FirstPathLowest(b, a[0]);
    CompareToAntisymmetric(a[0], b[0]);
  }

  /** The tail of a sequence holds its elements but the first. */
  lemma TailMultiset(a: seq<string>)
    requires |a| > 0
    ensures multiset(a[1..]) == multiset(a) - multiset{a[0]}
  {
    assert a == [a[0]] + a[1..];
  }

  // ---------------------------------------------------------------------
  // UPGRADE_SCRIPT_PATTERN = "/(\d+_\d+_\d+)/.+\.sql$", searched with find()
  // ---------------------------------------------------------------------

  const UPGRADE_SCRIPT_PATTERN: string := "/(\\d+_\\d+_\\d+)/.+\\.sql$"

  predicate DigitsBetween(s: string, lo: int, hi: int)
  {
    0 <= lo <= hi <= |s| && forall k :: lo <= k < hi ==> IsDigit(s[k])
  }

  /** The end of the run of ASCII digits (`\d`) that starts at `i`. */
  function DigitsEnd(s: string, i: nat): (j: nat)
    requires i <= |s|
    ensures i <= j <= |s| && DigitsBetween(s, i, j)
    ensures j < |s| ==> !IsDigit(s[j])
    decreases |s| - i
  {
    if i < |s| && IsDigit(s[i]) then DigitsEnd(s, i + 1) else i
  }

  lemma {:induction false} DigitsEndUnique(s: string, i: nat, j: nat)
    requires i <= j <= |s| && DigitsBetween(s, i, j) && (j < |s| ==> !IsDigit(s[j]))
    ensures DigitsEnd(s, i) == j
    decreases j - i
  {
    if i < j {
      DigitsEndUnique(s, i + 1, j);
    }
  }

  /**
   * The pattern matches `path` from `i`: a `/`, three non-empty digit runs
   * joined by `_` (group 1 is `path[i + 1..c]`), a `/`, at least one more
   * character for `.+` and `.sql` at the very end. Paths hold no line
   * terminator, so `.` matches every character and `$` only the end.
   */
  predicate MatchShape(path: string, i: int, a: int, b: int, c: int)
  {
    0 <= i && i + 1 < a && a + 1 < b && b + 1 < c && c + 6 <= |path|
    && path[i] == '/' && DigitsBetween(path, i + 1, a) && path[a] == '_'
    && DigitsBetween(path, a + 1, b) && path[b] == '_'
    && DigitsBetween(path, b + 1, c) && path[c] == '/'
    && path[|path| - 4..] == ".sql"
  }

  /** The ends of the three digit runs of a match that starts at `i`, if one does. */
  function MatchAt(path: string, i: nat): (r: Option<(nat, nat, nat)>)
    requires i <= |path|
    ensures r.Some? ==> MatchShape(path, i, r.value.0, r.value.1, r.value.2)
    ensures forall a, b, c :: MatchShape(path, i, a, b, c) ==> r == Some((a, b, c))
  {
    if i == |path| || path[i] != '/' then None
    else
      var a := DigitsEnd(path, i + 1);
      if a == i + 1 || a == |path| || path[a] != '_' then None
      else
        var b := DigitsEnd(path, a + 1);
        if b == a + 1 || b == |path| || path[b] != '_' then None
        else
          var c := DigitsEnd(path, b + 1);
          if c == b + 1 || c == |path| || path[c] != '/' then None
          else if c + 6 <= |path| && path[|path| - 4..] == ".sql" then Some((a, b, c))
          else None
  }

  /** `Matcher.find`: the leftmost match at or after `from`, with its start. */
  function FindMatch(path: string, from: nat): (r: Option<(nat, nat, nat, nat)>)
    requires from <= |path|
    ensures r.Some? ==> from <= r.value.0 <= |path|
                        && MatchAt(path, r.value.0) == Some((r.value.1, r.value.2, r.value.3))
    ensures r.Some? ==> forall i :: from <= i < r.value.0 ==> MatchAt(path, i).None?
    ensures r.None? ==> forall i :: from <= i <= |path| ==> MatchAt(path, i).None?
    decreases |path| - from
  {
    match MatchAt(path, from)
    case Some((a, b, c)) => Some((from, a, b, c))
    case None => if from == |path| then None else FindMatch(path, from + 1)
  }

  /** `"x_y_z".split("_")` for three non-empty pieces without `_`. */
  lemma SplitOfTriple(x: string, y: string, z: string)
    requires |z| > 0 && NoneIn(x, {'_'}) && NoneIn(y, {'_'}) && NoneIn(z, {'_'})
    ensures Split(x + "_" + y + "_" + z, {'_'}) == [x, y, z]
  {
    var g := x + "_" + y + "_" + z;
    assert g == x + ['_'] + (y + ['_'] + z);
    PiecesOfSeparated(x, '_', y + ['_'] + z, {'_'});
    PiecesOfSeparated(y, '_', z, {'_'});
    PiecesOfNoSeparator(z, {'_'});
    assert g[|x|] == '_';
    assert Pieces(g, {'_'}) == [x, y, z];
  }

  /** `matcher.group(1).split("_")` gives the three digit runs. */
  lemma SplitOfGroup(path: string, i: nat, a: nat, b: nat, c: nat)
    requires MatchShape(path, i, a, b, c)
    ensures Split(path[i + 1..c], {'_'}) == [path[i + 1..a], path[a + 1..b], path[b + 1..c]]
    ensures AllDigits(path[i + 1..a]) && AllDigits(path[a + 1..b]) && AllDigits(path[b + 1..c])
  {
    var x, y, z := path[i + 1..a], path[a + 1..b], path[b + 1..c];
    assert path[i + 1..c] == x + "_" + y + "_" + z;
    assert forall k :: 0 <= k < |x| ==> x[k] == path[i + 1 + k];
    assert forall k :: 0 <= k < |y| ==> y[k] == path[a + 1 + k];
    assert forall k :: 0 <= k < |z| ==> z[k] == path[b + 1 + k];
    SplitOfTriple(x, y, z);
  }

  /** A version that names an upgrade directory: three non-negative numbers, no qualifier. */
  predicate DirVersion(v: DV.Version)
  {
    v.major.Some? && v.minor.Some? && v.maintenance.Some? && v.qualifier.None?
    && v.major.value >= 0 && v.minor.value >= 0 && v.maintenance.value >= 0
  }

  /**
   * `Integer.parseInt` of the three parts of group 1, in order; the first
   * part that does not fit an `int` raises `NumberFormatException`.
   */
  function VersionOfGroup(group: string): (r: Result<DV.Version, SchemaError>)
    requires |Split(group, {'_'})| == 3
    requires forall k :: 0 <= k < 3 ==> AllDigits(Split(group, {'_'})[k])
    ensures r.Ok? ==> DirVersion(r.value)
  {
    var parts := Split(group, {'_'});
    match (ParseInt(parts[0]), ParseInt(parts[1]), ParseInt(parts[2]))
    case (None, _, _) => Err(NumberFormat(parts[0]))
    case (Some(_), None, _) => Err(NumberFormat(parts[1]))
    case (Some(_), Some(_), None) => Err(NumberFormat(parts[2]))
    case (Some(major), Some(minor), Some(maintenance)) =>
      assert AllDigits(parts[0]) && AllDigits(parts[1]) && AllDigits(parts[2]);
      Ok(DV.Version(Some(major), Some(minor), Some(maintenance), None))
  }

  /**
   * The body of the first loop of `getUpgradeScriptUrls` for one path: a
   * path the pattern does not find is skipped; a match gives the directory
   * version of its group 1.
   */
  function DirVersionOfPath(path: string): (r: Result<Option<DV.Version>, SchemaError>)
    ensures r.Ok? && r.value.Some? ==> DirVersion(r.value.value)
    ensures FindMatch(path, 0).None? ==> r == Ok(None)
  {
    match FindMatch(path, 0)
    case None => Ok(None)
    case Some((i, a, b, c)) =>
      SplitOfGroup(path, i, a, b, c);
      match VersionOfGroup(path[i + 1..c])
      case Err(e) => Err(e)
      case Ok(v) => Ok(Some(v))
  }

  /** The directory name the second loop rebuilds from a version: `major_minor_maintenance`. */
  function DirName(v: DV.Version): (r: string)
    requires v.major.Some?
  {
    IntToString(v.major.value) + "_" + VConv.IntegerToString(v.minor) + "_" + VConv.IntegerToString(v.maintenance)
  }

  /** No match starts inside a root free of `_`: its digit runs are never followed by `_`. */
  lemma NoMatchInRoot(path: string, root: string)
    requires |root| < |path| && path[..|root|] == root && path[|root|] == '/' && NoneIn(root, {'_'})
    ensures forall i :: 0 <= i < |root| ==> MatchAt(path, i).None?
  {
    forall i | 0 <= i < |root| ensures MatchAt(path, i).None? {
      if path[i] == '/' {
        var e := DigitsEnd(path, i + 1);
        if e < |root| {
          assert path[e] == root[e];
        }
      }
    }
  }

  lemma DigitsAt(path: string, lo: nat, x: string)
    requires lo + |x| <= |path| && path[lo..lo + |x|] == x && AllDigits(x)
    ensures DigitsBetween(path, lo, lo + |x|)
  {
    assert forall k :: lo <= k < lo + |x| ==> path[k] == x[k - lo];
  }

  /** The script path `root/x_y_z/name.sql`. */
  function ScriptPath(root: string, x: string, y: string, z: string, name: string): string
  {
    root + "/" + x + "_" + y + "_" + z + "/" + name + ".sql"
  }

  /** The pieces of `root/x_y_z/name.sql` sit where the pattern looks for them. */
  lemma ScriptPathPieces(root: string, x: string, y: string, z: string, name: string)
    ensures var path := ScriptPath(root, x, y, z, name);
            var i, a := |root|, |root| + 1 + |x|;
            var b := a + 1 + |y|;
            var c := b + 1 + |z|;
            c + 5 + |name| == |path|
            && path[..i] == root && path[i] == '/' && path[i + 1..a] == x && path[a] == '_'
            && path[a + 1..b] == y && path[b] == '_' && path[b + 1..c] == z && path[c] == '/'
            && path[|path| - 4..] == ".sql" && path[i + 1..c] == x + "_" + y + "_" + z
  {
  }

  /** The pattern matches `root/x_y_z/name.sql` where the root ends. */
  lemma MatchAtScriptPath(root: string, x: string, y: string, z: string, name: string)
    requires |name| > 0
    requires |x| > 0 && |y| > 0 && |z| > 0 && AllDigits(x) && AllDigits(y) && AllDigits(z)
    ensures |root| < |ScriptPath(root, x, y, z, name)|
    ensures MatchAt(ScriptPath(root, x, y, z, name), |root|)
            == Some((|root| + 1 + |x|, |root| + 2 + |x| + |y|, |root| + 3 + |x| + |y| + |z|))
  {
    SplitOfTriple(x, y, z);
    var path := ScriptPath(root, x, y, z, name);
    var i, a := |root|, |root| + 1 + |x|;
    var b := a + 1 + |y|;
    var c := b + 1 + |z|;
    ScriptPathPieces(root, x, y, z, name);
    DigitsAt(path, i + 1, x);
    DigitsAt(path, a + 1, y);
    DigitsAt(path, b + 1, z);
    assert MatchShape(path, i, a, b, c);
  }

  /** The characters after `x_y_z/` are just `.sql`: no match starts at or after the first digit. */
  lemma NoMatchAfterGroup(path: string, i: nat, a: nat, b: nat, c: nat)
    requires i < a < b < c && c + 5 == |path| && path[|path| - 4..] == ".sql"
    requires DigitsBetween(path, i + 1, a) && path[a] == '_' && DigitsBetween(path, a + 1, b) && path[b] == '_'
    requires DigitsBetween(path, b + 1, c)
    ensures forall j :: i < j <= |path| ==> MatchAt(path, j).None?
  {
    forall j | i < j <= |path| ensures MatchAt(path, j).None? {
      if j < c && j != a && j != b {
        assert IsDigit(path[j]);
      } else if c < j < |path| {
        assert path[j] == ".sql"[j - (|path| - 4)];
      } else if j == c {
        assert path[c + 1] == ".sql"[0];
        DigitsEndUnique(path, c + 1, c + 1);
      }
    }
  }

  /** A path `root/x_y_z/.sql`, given by the positions of its pieces, has no match at all. */
  lemma NoMatchWithEmptyName(path: string, root: string, a: nat, b: nat, c: nat)
    requires NoneIn(root, {'_'}) && |root| < a < b < c && c + 5 == |path| && path[|path| - 4..] == ".sql"
    requires path[..|root|] == root && path[|root|] == '/'
    requires DigitsBetween(path, |root| + 1, a) && path[a] == '_' && DigitsBetween(path, a + 1, b) && path[b] == '_'
    requires DigitsBetween(path, b + 1, c) && path[c] == '/'
    ensures FindMatch(path, 0).None?
  {
    var i := |root|;
    NoMatchInRoot(path, root);
    DigitsEndUnique(path, i + 1, a);
    DigitsEndUnique(path, a + 1, b);
    DigitsEndUnique(path, b + 1, c);
    assert MatchAt(path, i).None?;
    NoMatchAfterGroup(path, i, a, b, c);
  }

  /**
   * A script named just `.sql` leaves nothing for `.+`: the pattern finds no
   * match and the path is skipped, whatever its digit groups.
   */
  lemma EmptyScriptNameSkipped(root: string, x: string, y: string, z: string)
    requires NoneIn(root, {'_'})
    requires |x| > 0 && |y| > 0 && |z| > 0 && AllDigits(x) && AllDigits(y) && AllDigits(z)
    ensures FindMatch(ScriptPath(root, x, y, z, ""), 0).None?
    ensures DirVersionOfPath(ScriptPath(root, x, y, z, "")) == Ok(None)
  {
    var path := ScriptPath(root, x, y, z, "");
    var a := |root| + 1 + |x|;
    var b := a + 1 + |y|;
    var c := b + 1 + |z|;
    ScriptPathPieces(root, x, y, z, "");
    DigitsAt(path, |root| + 1, x);
    DigitsAt(path, a + 1, y);
    DigitsAt(path, b + 1, z);
    NoMatchWithEmptyName(path, root, a, b, c);
  }

  /** The leftmost match of `root/x_y_z/name.sql` is the directory part. */
  lemma MatchOfScriptPath(root: string, x: string, y: string, z: string, name: string)
    requires NoneIn(root, {'_'}) && |name| > 0
    requires |x| > 0 && |y| > 0 && |z| > 0 && AllDigits(x) && AllDigits(y) && AllDigits(z)
    ensures FindMatch(ScriptPath(root, x, y, z, name), 0)
            == Some((|root|, |root| + 1 + |x|, |root| + 2 + |x| + |y|, |root| + 3 + |x| + |y| + |z|))
  {
    var path := ScriptPath(root, x, y, z, name);
    MatchAtScriptPath(root, x, y, z, name);
    assert path[..|root|] == root && path[|root|] == '/' by {
      ScriptPathPieces(root, x, y, z, name);
    }
    NoMatchInRoot(path, root);
    LeftmostMatch(path, |root|, |root| + 1 + |x|, |root| + 2 + |x| + |y|, |root| + 3 + |x| + |y| + |z|);
  }

  /** A match with none before it is the one `find` reports. */
  lemma LeftmostMatch(path: string, i: nat, a: nat, b: nat, c: nat)
    requires i <= |path| && MatchAt(path, i) == Some((a, b, c))
    requires forall j :: 0 <= j < i ==> MatchAt(path, j).None?
    ensures FindMatch(path, 0) == Some((i, a, b, c))
  {
  }

  /** A path whose leftmost match is known has the directory version of that match's group. */
  lemma DirVersionOfFoundPath(path: string, i: nat, a: nat, b: nat, c: nat)
    requires FindMatch(path, 0) == Some((i, a, b, c))
    ensures i < c <= |path|
    ensures Split(path[i + 1..c], {'_'}) == [path[i + 1..a], path[a + 1..b], path[b + 1..c]]
    ensures AllDigits(path[i + 1..a]) && AllDigits(path[a + 1..b]) && AllDigits(path[b + 1..c])
    ensures VersionOfGroup(path[i + 1..c]).Ok?
            ==> DirVersionOfPath(path) == Ok(Some(VersionOfGroup(path[i + 1..c]).value))
  {
    assert MatchShape(path, i, a, b, c);
    SplitOfGroup(path, i, a, b, c);
  }

  /** A directory name rebuilt from a version parses back to that version. */
  lemma VersionOfDirName(v: DV.Version)
    requires DirVersion(v)
    ensures |Split(DirName(v), {'_'})| == 3 && forall k :: 0 <= k < 3 ==> AllDigits(Split(DirName(v), {'_'})[k])
    ensures VersionOfGroup(DirName(v)) == Ok(v)
  {
    var x, y, z := IntToString(v.major.value), IntToString(v.minor.value), IntToString(v.maintenance.value);
    assert DirName(v) == x + "_" + y + "_" + z;
    SplitOfTriple(x, y, z);
    ParseIntOfIntToString(v.major.value);
    ParseIntOfIntToString(v.minor.value);
    ParseIntOfIntToString(v.maintenance.value);
  }

  /**
   * A script in a directory named after a version is read back as that
   * version, provided the root holds no `_` (a match could start there).
   */
  lemma ScriptPathNamesItsDirectory(root: string, v: DV.Version, name: string)
    requires DirVersion(v) && NoneIn(root, {'_'}) && |name| > 0
    ensures DirVersionOfPath(root + "/" + DirName(v) + "/" + name + ".sql") == Ok(Some(v))
  {
    var x, y, z := IntToString(v.major.value), IntToString(v.minor.value), IntToString(v.maintenance.value);
    assert DirName(v) == x + "_" + y + "_" + z;
    VersionOfDirName(v);
    DirVersionOfScriptPath(root, x, y, z, name);
    ScriptPathOfGroup(root, x, y, z, name);
  }

  /** The directory version of `root/x_y_z/name.sql` is that of its group `x_y_z`. */
  lemma DirVersionOfScriptPath(root: string, x: string, y: string, z: string, name: string)
    requires NoneIn(root, {'_'}) && |name| > 0
    requires |x| > 0 && |y| > 0 && |z| > 0 && AllDigits(x) && AllDigits(y) && AllDigits(z)
    ensures Split(x + "_" + y + "_" + z, {'_'}) == [x, y, z]
    ensures VersionOfGroup(x + "_" + y + "_" + z).Ok?
            ==> DirVersionOfPath(ScriptPath(root, x, y, z, name)) == Ok(Some(VersionOfGroup(x + "_" + y + "_" + z).value))
  {
    var path := ScriptPath(root, x, y, z, name);
    var i, a, b, c := |root|, |root| + 1 + |x|, |root| + 2 + |x| + |y|, |root| + 3 + |x| + |y| + |z|;
    MatchAtScriptPath(root, x, y, z, name);
    assert path[..|root|] == root && path[|root|] == '/' by {
      ScriptPathPieces(root, x, y, z, name);
    }
    NoMatchInRoot(path, root);
    LeftmostMatch(path, i, a, b, c);
    SplitOfTriple(x, y, z);
    GroupOfScriptPath(root, x, y, z, name);
    DirVersionOfGroupAt(path, x + "_" + y + "_" + z, x, y, z, i, a, b, c);
  }

  /** The directory part of `root/x_y_z/name.sql`. */
  lemma GroupOfScriptPath(root: string, x: string, y: string, z: string, name: string)
    ensures |root| + 3 + |x| + |y| + |z| <= |ScriptPath(root, x, y, z, name)|
    ensures ScriptPath(root, x, y, z, name)[|root| + 1..|root| + 3 + |x| + |y| + |z|] == x + "_" + y + "_" + z
  {
    ScriptPathPieces(root, x, y, z, name);
  }

  /** The directory version of a path whose leftmost match spans the group `g`. */
  lemma DirVersionOfGroupAt(path: string, g: string, x: string, y: string, z: string, i: nat, a: nat, b: nat, c: nat)
    requires FindMatch(path, 0) == Some((i, a, b, c))
    requires i + 1 <= c <= |path| && path[i + 1..c] == g
    requires Split(g, {'_'}) == [x, y, z] && AllDigits(x) && AllDigits(y) && AllDigits(z)
    ensures VersionOfGroup(g).Ok? ==> DirVersionOfPath(path) == Ok(Some(VersionOfGroup(g).value))
  {
    DirVersionOfFoundPath(path, i, a, b, c);
  }

  lemma ScriptPathOfGroup(root: string, x: string, y: string, z: string, name: string)
    ensures root + "/" + (x + "_" + y + "_" + z) + "/" + name + ".sql" == ScriptPath(root, x, y, z, name)
  {
  }

  // ---------------------------------------------------------------------
  // The TreeSet of directory versions ordered by VersionComparator
  // ---------------------------------------------------------------------

  predicate StrictlyAscending(s: seq<DV.Version>)
  {
    forall i, j :: 0 <= i < j < |s| ==> VC.Compare(s[i], s[j]) < 0
  }

  lemma CompareStrictTransitive(x: DV.Version, y: DV.Version, z: DV.Version)
    requires VC.Compare(x, y) < 0 && VC.Compare(y, z) < 0
    ensures VC.Compare(x, z) < 0
  {
    VC.CompareTransitive(x, y, z);
    if VC.Compare(x, z) == 0 {
      VC.CompareAntisymmetric(x, y);
    }
  }

  /** A version below the first of an ascending list goes in front of it. */
  lemma AddBelowFirst(s: seq<DV.Version>, v: DV.Version)
    requires StrictlyAscending(s) && |s| > 0 && VC.Compare(v, s[0]) < 0
    ensures StrictlyAscending([v] + s) && v !in s
  {
    forall j | 0 < j < |s| ensures VC.Compare(v, s[j]) < 0 {
      CompareStrictTransitive(v, s[0], s[j]);
    }
  }

  /** A version above the first stays behind it, so the first stays in front of the rest with `v` added. */
  lemma AddAfterFirst(s: seq<DV.Version>, v: DV.Version, rest: seq<DV.Version>)
    requires StrictlyAscending(s) && |s| > 0 && VC.Compare(v, s[0]) > 0
    requires StrictlyAscending(rest) && forall x :: x in rest <==> x in s[1..] || x == v
    ensures StrictlyAscending([s[0]] + rest)
  {
    VC.CompareAntisymmetric(v, s[0]);
    assert forall x :: x in rest ==> VC.Compare(s[0], x) < 0;
    var r := [s[0]] + rest;
    assert forall j :: 0 < j < |r| ==> r[j] in rest;
  }

  /** `TreeSet.add`: inserts `v` in comparator order unless an equal version is present. */
  function TreeSetAdd(s: seq<DV.Version>, v: DV.Version): (r: seq<DV.Version>)
    requires StrictlyAscending(s)
    ensures StrictlyAscending(r)
    ensures forall x :: x in r <==> x in s || x == v
    ensures v in s ==> r == s
  {
    if |s| == 0 then [v]
    else
      var c := VC.Compare(v, s[0]);
      if c == 0 then s
      else if c < 0 then
        AddBelowFirst(s, v);
        [v] + s
      else
        assert s == [s[0]] + s[1..];
        var rest := TreeSetAdd(s[1..], v);
        AddAfterFirst(s, v, rest);
        [s[0]] + rest
  }

  /** What the first loop of `getUpgradeScriptUrls` finds for one path. */
  type Found = Result<Option<DV.Version>, SchemaError>

  predicate FoundDirVersions(found: seq<Found>)
  {
    forall k :: 0 <= k < |found| ==> found[k].Ok? && found[k].value.Some? ==> DirVersion(found[k].value.value)
  }

  /** `DirVersionOfPath` applied to every listed path, in listing order. */
  function DirVersionsOfPaths(paths: seq<string>): (r: seq<Found>)
    ensures |r| == |paths| && forall k :: 0 <= k < |r| ==> r[k] == DirVersionOfPath(paths[k])
    ensures FoundDirVersions(r)
  {
    seq(|paths|, k requires 0 <= k < |paths| => DirVersionOfPath(paths[k]))
  }

  /**
   * The first loop of `getUpgradeScriptUrls`: the directory versions found,
   * added one by one to the `TreeSet`, or the first `NumberFormatException`.
   */
  function CollectDirVersions(found: seq<Found>): (r: Result<seq<DV.Version>, SchemaError>)
    requires FoundDirVersions(found)
    ensures r.Ok? ==> StrictlyAscending(r.value)
    ensures r.Ok? ==> forall k :: 0 <= k < |r.value| ==> DirVersion(r.value[k])
    decreases |found|
  {
    if |found| == 0 then Ok([])
    else
      assert FoundDirVersions(found[..|found| - 1]) by {
        assert forall k :: 0 <= k < |found| - 1 ==> found[..|found| - 1][k] == found[k];
      }
      match CollectDirVersions(found[..|found| - 1])
      case Err(e) => Err(e)
      case Ok(dirs) =>
        match found[|found| - 1]
        case Err(e) => Err(e)
        case Ok(None) => Ok(dirs)
        case Ok(Some(v)) =>
          var r := TreeSetAdd(dirs, v);
          assert forall x :: x in dirs ==> DirVersion(x);
          assert forall k :: 0 <= k < |r| ==> r[k] in r;
          Ok(r)
  }

  /** The first loop fails exactly when one of the listed paths raises `NumberFormatException`. */
  lemma {:induction false} CollectFailsOnBadPath(found: seq<Found>)
    requires FoundDirVersions(found)
    ensures CollectDirVersions(found).Ok? <==> forall k :: 0 <= k < |found| ==> found[k].Ok?
    decreases |found|
  {
    if |found| > 0 {
      var init := found[..|found| - 1];
      assert forall k :: 0 <= k < |init| ==> init[k] == found[k];
      CollectFailsOnBadPath(init);
    }
  }

  /** Some listed path names directory version `v`. */
  predicate NamedBy(found: seq<Found>, v: DV.Version)
  {
    exists k :: 0 <= k < |found| && found[k] == Ok(Some(v))
  }

  lemma NamedBySnoc(found: seq<Found>, v: DV.Version)
    requires |found| > 0
    ensures NamedBy(found, v) <==> NamedBy(found[..|found| - 1], v) || found[|found| - 1] == Ok(Some(v))
  {
    var init := found[..|found| - 1];
    if NamedBy(found, v) {
      var k :| 0 <= k < |found| && found[k] == Ok(Some(v));
      if k < |init| {
        assert init[k] == found[k];
      }
    }
    if NamedBy(init, v) {
      var k :| 0 <= k < |init| && init[k] == Ok(Some(v));
      assert init[k] == found[k];
    }
  }

  /** The directories are exactly the versions named by the listed paths. */
  lemma {:induction false} CollectedDirectories(found: seq<Found>)
    requires FoundDirVersions(found) && CollectDirVersions(found).Ok?
    ensures forall v :: v in CollectDirVersions(found).value <==> NamedBy(found, v)
    decreases |found|
  {
    if |found| > 0 {
      var init := found[..|found| - 1];
      assert forall k :: 0 <= k < |init| ==> init[k] == found[k];
      var dirs := CollectDirVersions(init).value;
      CollectedDirectories(init);
      var r := CollectDirVersions(found).value;
      forall v
        ensures v in r <==> NamedBy(found, v)
      {
        NamedBySnoc(found, v);
      }
    }
  }

  // ---------------------------------------------------------------------
  // Script selection
  // ---------------------------------------------------------------------

  /** The filter of the second loop: `current < dir <= desired`. */
  predicate Selected(dir: DV.Version, current: DV.Version, desired: DV.Version)
  {
    VC.Compare(dir, current) > 0 && VC.Compare(dir, desired) <= 0
  }

  function DirPattern(root: string, dir: DV.Version): string
    requires dir.major.Some?
  {
    root + "/" + DirName(dir) + "/*.sql"
  }

  /**
   * The second loop of `getUpgradeScriptUrls` over the ascending directories:
   * the path-sorted scripts of every selected directory, concatenated.
   */
  function ScriptsOfDirs(root: string, dirs: seq<DV.Version>, current: DV.Version, desired: DV.Version,
                         listing: Listing): (r: Result<seq<string>, SchemaError>)
    requires forall k :: 0 <= k < |dirs| ==> dirs[k].major.Some?
    decreases |dirs|
  {
    if |dirs| == 0 then Ok([])
    else
      var d := dirs[|dirs| - 1];
      match ScriptsOfDirs(root, dirs[..|dirs| - 1], current, desired, listing)
      case Err(e) => Err(e)
      case Ok(urls) =>
        if !Selected(d, current, desired) then Ok(urls)
        else
          match listing(DirPattern(root, d))
          case None => Err(DaoError(UPGRADE_LISTING_ERROR))
          case Some(paths) => Ok(urls + SortPaths(paths))
  }

  /** Every selected script comes from the listing of a directory in (current, desired]. */
  lemma {:induction false} ScriptsFromSelectedDirs(root: string, dirs: seq<DV.Version>, current: DV.Version,
                                                   desired: DV.Version, listing: Listing)
    requires forall k :: 0 <= k < |dirs| ==> dirs[k].major.Some?
    ensures var r := ScriptsOfDirs(root, dirs, current, desired, listing);
            r.Ok? ==> forall u :: u in r.value ==>
              exists d :: d in dirs && Selected(d, current, desired)
                          && listing(DirPattern(root, d)).Some? && u in listing(DirPattern(root, d)).value
    decreases |dirs|
  {
    if |dirs| > 0 {
      var init := dirs[..|dirs| - 1];
      var d := dirs[|dirs| - 1];
      ScriptsFromSelectedDirs(root, init, current, desired, listing);
      var r := ScriptsOfDirs(root, dirs, current, desired, listing);
      if r.Ok? {
        var urls := ScriptsOfDirs(root, init, current, desired, listing).value;
        forall u | u in r.value
          ensures exists d :: d in dirs && Selected(d, current, desired)
                              && listing(DirPattern(root, d)).Some? && u in listing(DirPattern(root, d)).value
        {
          if u in urls {
            var d' :| d' in init && Selected(d', current, desired)
                      && listing(DirPattern(root, d')).Some? && u in listing(DirPattern(root, d')).value;
            assert d' in dirs;
          } else {
            var paths := listing(DirPattern(root, d)).value;
            assert u in multiset(SortPaths(paths));
            assert u in paths;
          }
        }
      }
    }
  }

  /** Every script listed in a selected directory is selected. */
  lemma {:induction false} SelectedDirsComplete(root: string, dirs: seq<DV.Version>, current: DV.Version,
                                                desired: DV.Version, listing: Listing)
    requires forall k :: 0 <= k < |dirs| ==> dirs[k].major.Some?
    ensures var r := ScriptsOfDirs(root, dirs, current, desired, listing);
            r.Ok? ==> forall d, u :: (d in dirs && Selected(d, current, desired) && listing(DirPattern(root, d)).Some?
                                      && u in listing(DirPattern(root, d)).value) ==> u in r.value
    decreases |dirs|
  {
    if |dirs| > 0 {
      var init := dirs[..|dirs| - 1];
      var last := dirs[|dirs| - 1];
      SelectedDirsComplete(root, init, current, desired, listing);
      var r := ScriptsOfDirs(root, dirs, current, desired, listing);
      if r.Ok? {
        var urls := ScriptsOfDirs(root, init, current, desired, listing).value;
        forall d, u | d in dirs && Selected(d, current, desired) && listing(DirPattern(root, d)).Some?
                      && u in listing(DirPattern(root, d)).value
          ensures u in r.value
        {
          if d == last {
            var paths := listing(DirPattern(root, d)).value;
            assert u in multiset(paths);
            assert u in multiset(SortPaths(paths));
          } else {
            assert d in init by {
              var k :| 0 <= k < |dirs| && dirs[k] == d;
              assert k < |dirs| - 1 && init[k] == d;
            }
          }
        }
      }
    }
  }

  /** `getUpgradeScriptUrls` as a function: list, collect and order the directories, select. */
  function UpgradeScriptUrls(root: string, current: DV.Version, desired: DV.Version, listing: Listing)
    : (r: Result<seq<string>, SchemaError>)
    ensures listing(root + "/*/*.sql").None? ==> r == Err(DaoError(UPGRADE_LISTING_ERROR))
  {
    match listing(root + "/*/*.sql")
    case None => Err(DaoError(UPGRADE_LISTING_ERROR))
    case Some(paths) =>
      match CollectDirVersions(DirVersionsOfPaths(paths))
      case Err(e) => Err(e)
      case Ok(dirs) => ScriptsOfDirs(root, dirs, current, desired, listing)
  }

  /**
   * The upgrade scripts are exactly the scripts of the directories named by
   * the listing whose version lies in (current, desired].
   */
  lemma UpgradeScriptsSelection(root: string, current: DV.Version, desired: DV.Version, listing: Listing)
    requires UpgradeScriptUrls(root, current, desired, listing).Ok?
    ensures var dirs := CollectDirVersions(DirVersionsOfPaths(listing(root + "/*/*.sql").value)).value;
            var urls := UpgradeScriptUrls(root, current, desired, listing).value;
            StrictlyAscending(dirs)
            && (forall u :: u in urls <==>
                  exists d :: d in dirs && Selected(d, current, desired)
                              && listing(DirPattern(root, d)).Some? && u in listing(DirPattern(root, d)).value)
  {
    var dirs := UpgradeDirs(root, current, desired, listing);
    ScriptsFromSelectedDirs(root, dirs, current, desired, listing);
    SelectedDirsComplete(root, dirs, current, desired, listing);
  }

  /** The directory versions behind a successful `getUpgradeScriptUrls`, and its scripts drawn from them. */
  lemma UpgradeDirs(root: string, current: DV.Version, desired: DV.Version, listing: Listing)
    returns (dirs: seq<DV.Version>)
    requires UpgradeScriptUrls(root, current, desired, listing).Ok?
    ensures CollectDirVersions(DirVersionsOfPaths(listing(root + "/*/*.sql").value)) == Ok(dirs)
    ensures StrictlyAscending(dirs) && forall k :: 0 <= k < |dirs| ==> dirs[k].major.Some?
    ensures UpgradeScriptUrls(root, current, desired, listing) == ScriptsOfDirs(root, dirs, current, desired, listing)
  {
    var collected := CollectDirVersions(DirVersionsOfPaths(listing(root + "/*/*.sql").value));
    assert collected.Ok?;
    dirs := collected.value;
  }

  /** `getInitScriptUrls` as a function: the listed `.sql` files of the root, sorted by path. */
  function InitScriptUrls(root: string, listing: Listing): (r: Result<seq<string>, SchemaError>)
    ensures listing(root + "/*.sql").None? <==> r == Err(DaoError(INIT_LISTING_ERROR))
    ensures r.Ok? ==> SortedPaths(r.value) && multiset(r.value) == multiset(listing(root + "/*.sql").value)
  {
    match listing(root + "/*.sql")
    case None => Err(DaoError(INIT_LISTING_ERROR))
    case Some(paths) => Ok(SortPaths(paths))
  }

  // ---------------------------------------------------------------------
  // The decision
  // ---------------------------------------------------------------------

  /** What a successful run did. */
  datatype Outcome = Initialized(scripts: seq<string>) | UpToDate | FormalUpgrade | Upgraded(scripts: seq<string>)

  /** The desired schema version: the product's three numbers, no qualifier. */
  function DesiredVersion(product: DV.Version): DV.Version
  {
    DV.Version(product.major, product.minor, product.maintenance, None)
  }

  /** The version recorded by a history row. */
  function CurrentVersion(u: Dao.SchemaUpdate): DV.Version
  {
    DV.Version(u.major, u.minor, u.maintenance, None)
  }

  /** The message of the downgrade `DaoException`. */
  function DowngradeMessage(current: DV.Version, desired: DV.Version): string
  {
    "Detected QuartzDesk schema version (" + VConv.ToString(Some(current)).value
    + ") that is higher then the maximum expected schema version (" + VConv.ToString(Some(desired)).value
    + "). This happens if you are running multiple versions of the QuartzDesk application that share the same database."
  }

  /** `checkSchemaVersion`: passes iff current <= desired, else the downgrade `DaoException`. */
  function CheckSchemaVersion(current: DV.Version, desired: DV.Version): (r: Result<(), SchemaError>)
    ensures r.Ok? <==> VC.Compare(current, desired) <= 0
    ensures r.Err? ==> r.error == Downgrade(current, desired)
  {
    if VC.Compare(current, desired) <= 0 then Ok(()) else Err(Downgrade(current, desired))
  }

  /**
   * The decision of `maybeInitializeOrUpgradeDatabaseSchema` before any
   * script runs, from the latest history row.
   */
  function Plan(latest: Option<Dao.SchemaUpdate>, desired: DV.Version, initRoot: string, upgradeRoot: string,
                listing: Listing): Result<Outcome, SchemaError>
  {
    match latest
    case None =>
      (match InitScriptUrls(initRoot, listing)
       case Ok(s) => Ok(Initialized(s))
       case Err(e) => Err(e))
    case Some(u) =>
      var current := CurrentVersion(u);
      match CheckSchemaVersion(current, desired)
      case Err(e) => Err(e)
      case Ok(_) =>
        if current == desired then Ok(UpToDate)
        else
          match UpgradeScriptUrls(upgradeRoot, current, desired, listing)
          case Err(e) => Err(e)
          case Ok(scripts) => if |scripts| == 0 then Ok(FormalUpgrade) else Ok(Upgraded(scripts))
  }

  /**
   * The five outcomes: no history row initializes with the init scripts; a
   * schema newer than the product is refused; an equal one is up to date; an
   * older one is formally bumped when no upgrade script applies, and
   * upgraded with the selected scripts otherwise.
   */
  lemma PlanDecisions(latest: Option<Dao.SchemaUpdate>, desired: DV.Version, initRoot: string, upgradeRoot: string,
                      listing: Listing)
    ensures var r := Plan(latest, desired, initRoot, upgradeRoot, listing);
            latest.None? ==> r == (match InitScriptUrls(initRoot, listing)
                                   case Ok(s) => Ok(Initialized(s))
                                   case Err(e) => Err(e))
    ensures var r := Plan(latest, desired, initRoot, upgradeRoot, listing);
            latest.Some? && VC.Compare(CurrentVersion(latest.value), desired) > 0 ==>
              r == Err(Downgrade(CurrentVersion(latest.value), desired))
    ensures var r := Plan(latest, desired, initRoot, upgradeRoot, listing);
            r == Ok(UpToDate) <==> latest.Some? && CurrentVersion(latest.value) == desired
    ensures var r := Plan(latest, desired, initRoot, upgradeRoot, listing);
            r.Ok? && latest.Some? ==> VC.Compare(CurrentVersion(latest.value), desired) <= 0
    ensures var r := Plan(latest, desired, initRoot, upgradeRoot, listing);
            r.Ok? && (r.value.FormalUpgrade? || r.value.Upgraded?) ==>
              latest.Some? && VC.Compare(CurrentVersion(latest.value), desired) < 0
              && var scripts := UpgradeScriptUrls(upgradeRoot, CurrentVersion(latest.value), desired, listing);
                 scripts.Ok? && (r.value.FormalUpgrade? <==> scripts.value == [])
                 && (r.value.Upgraded? ==> r.value.scripts == scripts.value)
  {
    if latest.Some? {
      var current := CurrentVersion(latest.value);
      var check := CheckSchemaVersion(current, desired);
      assert check.Ok? <==> VC.Compare(current, desired) <= 0;
      if check.Ok? && current != desired {
        assert VC.Compare(current, desired) < 0;
      }
    }
  }


  /**
   * Once the latest row records the desired numbers, the next start finds the
   * schema up to date: a successful run is not repeated.
   */
  lemma RerunIsUpToDate(u: Dao.SchemaUpdate, desired: DV.Version, initRoot: string, upgradeRoot: string, listing: Listing)
    requires desired.qualifier.None?
    requires u.major == desired.major && u.minor == desired.minor && u.maintenance == desired.maintenance
    ensures Plan(Some(u), desired, initRoot, upgradeRoot, listing) == Ok(UpToDate)
  {
    assert CurrentVersion(u) == desired;
  }

  // ---------------------------------------------------------------------
  // The manager
  // ---------------------------------------------------------------------

  class SchemaManager {
    var productVersion: DV.Version
    var databaseSchemaDao: Dao.SchemaDao
    var initScriptsRoot: string
    var upgradeScriptsRoot: string

    /** The bean after Spring has called every required setter. */
    constructor (productVersion: DV.Version, databaseSchemaDao: Dao.SchemaDao, initScriptsRoot: string, upgradeScriptsRoot: string)
      ensures this.productVersion == productVersion && this.databaseSchemaDao == databaseSchemaDao
      ensures this.initScriptsRoot == initScriptsRoot && this.upgradeScriptsRoot == upgradeScriptsRoot
    {
      this.productVersion := productVersion;
      this.databaseSchemaDao := databaseSchemaDao;
      this.initScriptsRoot := initScriptsRoot;
      this.upgradeScriptsRoot := upgradeScriptsRoot;
    }

    method SetProductVersion(productVersion: DV.Version)
      modifies this`productVersion
      ensures this.productVersion == productVersion
    {
      this.productVersion := productVersion;
    }

    method SetDatabaseSchemaDao(databaseSchemaDao: Dao.SchemaDao)
      modifies this`databaseSchemaDao
      ensures this.databaseSchemaDao == databaseSchemaDao
    {
      this.databaseSchemaDao := databaseSchemaDao;
    }

    method SetInitScriptsRoot(initScriptsRoot: string)
      modifies this`initScriptsRoot
      ensures this.initScriptsRoot == initScriptsRoot
    {
      this.initScriptsRoot := initScriptsRoot;
    }

    method SetUpgradeScriptsRoot(upgradeScriptsRoot: string)
      modifies this`upgradeScriptsRoot
      ensures this.upgradeScriptsRoot == upgradeScriptsRoot
    {
      this.upgradeScriptsRoot := upgradeScriptsRoot;
    }

    /** `getInitScriptUrls`: copy the listed URLs into a list, then sort it by path. */
    method GetInitScriptUrls(listing: Listing) returns (r: Result<seq<string>, SchemaError>)
      ensures r == InitScriptUrls(initScriptsRoot, listing)
    {
      var scriptResources := listing(initScriptsRoot + "/*.sql");
      if scriptResources.None? {
        return Err(DaoError(INIT_LISTING_ERROR));
      }
      var scriptUrls := CollectUrls(scriptResources.value);
      return Ok(SortPaths(scriptUrls));
    }

    /**
     * `getUpgradeScriptUrls`: fill the `TreeSet` of directory versions from the
     * matching paths, then append the sorted scripts of each selected directory.
     */
    method GetUpgradeScriptUrls(current: DV.Version, desired: DV.Version, listing: Listing)
      returns (r: Result<seq<string>, SchemaError>)
      ensures r == UpgradeScriptUrls(upgradeScriptsRoot, current, desired, listing)
    {
      var scriptResources := listing(upgradeScriptsRoot + "/*/*.sql");
      if scriptResources.None? {
        return Err(DaoError(UPGRADE_LISTING_ERROR));
      }
      var dirVersions := FillDirVersions(scriptResources.value);
      if dirVersions.Err? {
        return Err(dirVersions.error);
      }
      r := AppendSelectedScripts(upgradeScriptsRoot, dirVersions.value, current, desired, listing);
    }

    /**
     * `maybeInitializeOrUpgradeDatabaseSchema`, run in one transaction: an
     * exception leaves the history table as it was (statements a failed
     * script already executed stay sent). After success the latest row
     * records the desired version.
     */
    method MaybeInitializeOrUpgradeDatabaseSchema(listing: Listing, read: string -> Option<seq<string>>)
      returns (r: Result<Outcome, SchemaError>)
      requires databaseSchemaDao.Valid()
      modifies databaseSchemaDao, databaseSchemaDao.conn
      ensures databaseSchemaDao.Valid()
      ensures Applied(Plan(old(databaseSchemaDao.GetLatestSchemaUpdate()), DesiredVersion(productVersion),
                           initScriptsRoot, upgradeScriptsRoot, listing),
                      r, DesiredVersion(productVersion), read, databaseSchemaDao.conn.accepts,
                      old(databaseSchemaDao.rows), old(databaseSchemaDao.nextId), old(databaseSchemaDao.conn.sent),
                      databaseSchemaDao.rows, databaseSchemaDao.conn.sent)
      ensures r.Err? ==> databaseSchemaDao.rows == old(databaseSchemaDao.rows)
                         && databaseSchemaDao.nextId == old(databaseSchemaDao.nextId)
                         && databaseSchemaDao.tableExists == old(databaseSchemaDao.tableExists)
      ensures databaseSchemaDao.conn.commits == old(databaseSchemaDao.conn.commits)
      ensures r.Ok? ==> AtVersion(databaseSchemaDao, DesiredVersion(productVersion))
    {
      var desired := DesiredVersion(productVersion);
      var latest := databaseSchemaDao.GetLatestSchemaUpdate();
      if latest.None? {
        r := InitializeSchema(desired, listing, read);
      } else {
        r := UpgradeSchema(latest.value, desired, listing, read);
      }
    }

    /** The branch for an empty (or missing) history table: run the init scripts. */
    method InitializeSchema(desired: DV.Version, listing: Listing, read: string -> Option<seq<string>>)
      returns (r: Result<Outcome, SchemaError>)
      requires databaseSchemaDao.Valid() && databaseSchemaDao.GetLatestSchemaUpdate().None?
      requires desired.qualifier.None?
      modifies databaseSchemaDao, databaseSchemaDao.conn
      ensures databaseSchemaDao.Valid()
      ensures Applied(Plan(None, desired, initScriptsRoot, upgradeScriptsRoot, listing), r, desired, read,
                      databaseSchemaDao.conn.accepts, old(databaseSchemaDao.rows), old(databaseSchemaDao.nextId), old(databaseSchemaDao.conn.sent),
                      databaseSchemaDao.rows, databaseSchemaDao.conn.sent)
      ensures r.Err? ==> databaseSchemaDao.rows == old(databaseSchemaDao.rows)
                         && databaseSchemaDao.nextId == old(databaseSchemaDao.nextId)
                         && databaseSchemaDao.tableExists == old(databaseSchemaDao.tableExists)
      ensures databaseSchemaDao.conn.commits == old(databaseSchemaDao.conn.commits)
      ensures r.Ok? ==> AtVersion(databaseSchemaDao, desired)
    {
      var dao := databaseSchemaDao;
      var scriptUrls := GetInitScriptUrls(listing);
      if scriptUrls.Err? {
        return Err(scriptUrls.error);
      }
      var e := dao.InitializeOrUpgradeSchema(scriptUrls.value, desired, read);
      if e.Err? {
        return Err(ScriptFailed(e.error));
      }
      return Ok(Initialized(scriptUrls.value));
    }

    /** The branch for a schema at version `CurrentVersion(u)`: refuse, keep, bump or upgrade. */
    method UpgradeSchema(u: Dao.SchemaUpdate, desired: DV.Version, listing: Listing, read: string -> Option<seq<string>>)
      returns (r: Result<Outcome, SchemaError>)
      requires databaseSchemaDao.Valid() && databaseSchemaDao.GetLatestSchemaUpdate() == Some(u)
      requires desired.qualifier.None?
      modifies databaseSchemaDao, databaseSchemaDao.conn
      ensures databaseSchemaDao.Valid()
      ensures Applied(Plan(Some(u), desired, initScriptsRoot, upgradeScriptsRoot, listing), r, desired, read,
                      databaseSchemaDao.conn.accepts, old(databaseSchemaDao.rows), old(databaseSchemaDao.nextId), old(databaseSchemaDao.conn.sent),
                      databaseSchemaDao.rows, databaseSchemaDao.conn.sent)
      ensures r.Err? ==> databaseSchemaDao.rows == old(databaseSchemaDao.rows)
                         && databaseSchemaDao.nextId == old(databaseSchemaDao.nextId)
                         && databaseSchemaDao.tableExists == old(databaseSchemaDao.tableExists)
      ensures databaseSchemaDao.conn.commits == old(databaseSchemaDao.conn.commits)
      ensures r.Ok? ==> AtVersion(databaseSchemaDao, desired)
    {
      var dao := databaseSchemaDao;
      var current := CurrentVersion(u);
      var check := CheckSchemaVersion(current, desired);
      if check.Err? {
        return Err(check.error);
      }
      if current == desired {
        return Ok(UpToDate);
      }
      var scriptUrls := GetUpgradeScriptUrls(current, desired, listing);
      if scriptUrls.Err? {
        return Err(scriptUrls.error);
      }
      assert Plan(Some(u), desired, initScriptsRoot, upgradeScriptsRoot, listing)
             == Ok(if |scriptUrls.value| == 0 then FormalUpgrade else Upgraded(scriptUrls.value));
      r := ApplyUpgrade(scriptUrls.value, desired, read);
    }

    /** The end of the upgrade branch: bump the version when no script applies, run the scripts otherwise. */
    method ApplyUpgrade(scriptUrls: seq<string>, desired: DV.Version, read: string -> Option<seq<string>>)
      returns (r: Result<Outcome, SchemaError>)
      requires databaseSchemaDao.Valid()
      requires desired.qualifier.None?
      modifies databaseSchemaDao, databaseSchemaDao.conn
      ensures databaseSchemaDao.Valid()
      ensures Applied(Ok(if |scriptUrls| == 0 then FormalUpgrade else Upgraded(scriptUrls)), r, desired, read,
                      databaseSchemaDao.conn.accepts, old(databaseSchemaDao.rows), old(databaseSchemaDao.nextId), old(databaseSchemaDao.conn.sent),
                      databaseSchemaDao.rows, databaseSchemaDao.conn.sent)
      ensures r.Err? ==> databaseSchemaDao.rows == old(databaseSchemaDao.rows)
                         && databaseSchemaDao.nextId == old(databaseSchemaDao.nextId)
                         && databaseSchemaDao.tableExists == old(databaseSchemaDao.tableExists)
      ensures databaseSchemaDao.conn.commits == old(databaseSchemaDao.conn.commits)
      ensures r.Ok? ==> AtVersion(databaseSchemaDao, desired)
    {
      var dao := databaseSchemaDao;
      if |scriptUrls| == 0 {
        var id := dao.InsertSchemaUpdate(desired.major, desired.minor, desired.maintenance);
        return Ok(FormalUpgrade);
      }
      var e := dao.InitializeOrUpgradeSchema(scriptUrls, desired, read);
      if e.Err? {
        return Err(ScriptFailed(e.error));
      }
      return Ok(Upgraded(scriptUrls));
    }
  }

  /**
   * What a run that decided `plan` leaves behind: a refusal or "up to date"
   * changes nothing; a formal upgrade adds the desired row and sends no SQL;
   * an initialization or upgrade runs its scripts on the connection, and adds
   * the row when they run through, or fails with the scripts' error and adds
   * no row.
   */
  ghost predicate Applied(plan: Result<Outcome, SchemaError>, r: Result<Outcome, SchemaError>, desired: DV.Version,
                          read: string -> Option<seq<string>>, accepts: (seq<string>, string) -> bool,
                          rows0: seq<Dao.SchemaUpdate>, nextId0: int,
                          sent0: seq<string>, rows: seq<Dao.SchemaUpdate>, sent: seq<string>)
  {
    var row := Dao.SchemaUpdate(nextId0, desired.major, desired.minor, desired.maintenance);
    if plan.Err? || plan == Ok(UpToDate) then r == plan && rows == rows0 && sent == sent0
    else if plan == Ok(FormalUpgrade) then r == plan && rows == rows0 + [row] && sent == sent0
    else
      var run := ScriptsRun(plan.value.scripts, read, accepts, sent0);
      sent == sent0 + run.sent
      && (run.result.Ok? ==> r == plan && rows == rows0 + [row])
      && (run.result.Err? ==> r == Err(ScriptFailed(run.result.error)) && rows == rows0)
  }

  /** The run of a list of scripts by the default-configured executor of `initializeOrUpgradeSchema`. */
  ghost function ScriptsRun(scripts: seq<string>, read: string -> Option<seq<string>>,
                            accepts: (seq<string>, string) -> bool, sent0: seq<string>): DSE.ScriptsRun
  {
    DSE.RunScripts(scripts, read, accepts, sent0, None, DSE.DEFAULT_COMMENT_PREFIX, DSE.AsWrittenTolerance(false, false))
  }

  /**
   * An initialization or upgrade succeeds exactly when every script can be
   * read and no statement of all of them fails; it has then sent every
   * statement and added the desired row, and otherwise it fails on a script
   * and adds no row.
   */
  lemma AppliedScripts(plan: Result<Outcome, SchemaError>, r: Result<Outcome, SchemaError>, desired: DV.Version,
                       read: string -> Option<seq<string>>, accepts: (seq<string>, string) -> bool,
                       rows0: seq<Dao.SchemaUpdate>, nextId0: int,
                       sent0: seq<string>, rows: seq<Dao.SchemaUpdate>, sent: seq<string>)
    requires plan.Ok? && (plan.value.Initialized? || plan.value.Upgraded?)
    requires Applied(plan, r, desired, read, accepts, rows0, nextId0, sent0, rows, sent)
    ensures var all := DSE.AllStatements(plan.value.scripts, read, None, DSE.DEFAULT_COMMENT_PREFIX);
            r == plan <==> all.Some? && DSE.FirstFatal(accepts, sent0, all.value, DSE.AsWrittenTolerance(false, false)).None?
    ensures var all := DSE.AllStatements(plan.value.scripts, read, None, DSE.DEFAULT_COMMENT_PREFIX);
            r == plan ==> all.Some? && sent == sent0 + all.value
                          && rows == rows0 + [Dao.SchemaUpdate(nextId0, desired.major, desired.minor, desired.maintenance)]
    ensures r != plan ==> r.Err? && r.error.ScriptFailed? && rows == rows0
  {
    DSE.RunScriptsSucceeds(plan.value.scripts, read, accepts, sent0, None, DSE.DEFAULT_COMMENT_PREFIX,
                           DSE.AsWrittenTolerance(false, false));
  }

  /**
   * The history's latest row exists and, when the desired numbers are all
   * set, records exactly the desired version.
   */
  ghost predicate AtVersion(dao: Dao.SchemaDao, desired: DV.Version)
    reads dao
    requires dao.Valid()
  {
    var latest := dao.GetLatestSchemaUpdate();
    latest.Some? && (desired.major.Some? && desired.minor.Some? && desired.maintenance.Some? ==>
                     CurrentVersion(latest.value) == desired)
  }

  /** The `for (Resource r : scriptResources) scriptUrls.add(r.getURL())` loops. */
  method CollectUrls(resources: seq<string>) returns (scriptUrls: seq<string>)
    ensures scriptUrls == resources
  {
    scriptUrls := [];
    for k := 0 to |resources|
      invariant scriptUrls == resources[..k]
    {
      scriptUrls := scriptUrls + [resources[k]];
    }
  }

  /** The first loop of `getUpgradeScriptUrls`: match, split, parse and add to the `TreeSet`. */
  method FillDirVersions(paths: seq<string>) returns (r: Result<seq<DV.Version>, SchemaError>)
    ensures r == CollectDirVersions(DirVersionsOfPaths(paths))
  {
    ghost var found := DirVersionsOfPaths(paths);
    var dirVersions: seq<DV.Version> := [];
    for k := 0 to |paths|
      invariant FoundDirVersions(found[..k]) && CollectDirVersions(found[..k]) == Ok(dirVersions)
    {
      var dirVersion := DirVersionOfPath(paths[k]);
      CollectStep(found, k, dirVersions);
      if dirVersion.Err? {
        CollectErrorPersists(found, k + 1);
        return Err(dirVersion.error);
      }
      if dirVersion.value.Some? {
        dirVersions := TreeSetAdd(dirVersions, dirVersion.value.value);
      }
    }
    assert found[..|paths|] == found;
    return Ok(dirVersions);
  }

  /** The second loop of `getUpgradeScriptUrls`, over the directories in ascending order. */
  method AppendSelectedScripts(root: string, dirVersions: seq<DV.Version>, current: DV.Version, desired: DV.Version,
                               listing: Listing) returns (r: Result<seq<string>, SchemaError>)
    requires forall k :: 0 <= k < |dirVersions| ==> dirVersions[k].major.Some?
    ensures r == ScriptsOfDirs(root, dirVersions, current, desired, listing)
  {
    var result: seq<string> := [];
    for j := 0 to |dirVersions|
      invariant ScriptsOfDirs(root, dirVersions[..j], current, desired, listing) == Ok(result)
    {
      assert dirVersions[..j + 1][..j] == dirVersions[..j];
      var dirVersion := dirVersions[j];
      if Selected(dirVersion, current, desired) {
        var dirScripts := listing(DirPattern(root, dirVersion));
        if dirScripts.None? {
          ScriptsErrorPersists(root, dirVersions, j + 1, current, desired, listing);
          return Err(DaoError(UPGRADE_LISTING_ERROR));
        }
        var scriptUrls := CollectUrls(dirScripts.value);
        result := result + SortPaths(scriptUrls);
      }
    }
    assert dirVersions[..|dirVersions|] == dirVersions;
    return Ok(result);
  }

  /** One turn of the first loop: what the next listed path adds to the `TreeSet`. */
  lemma CollectStep(found: seq<Found>, k: nat, dirs: seq<DV.Version>)
    requires FoundDirVersions(found) && k < |found|
    requires FoundDirVersions(found[..k]) && CollectDirVersions(found[..k]) == Ok(dirs)
    ensures StrictlyAscending(dirs) && FoundDirVersions(found[..k + 1])
    ensures found[k].Err? ==> CollectDirVersions(found[..k + 1]) == Err(found[k].error)
    ensures found[k] == Ok(None) ==> CollectDirVersions(found[..k + 1]) == Ok(dirs)
    ensures found[k].Ok? && found[k].value.Some?
            ==> CollectDirVersions(found[..k + 1]) == Ok(TreeSetAdd(dirs, found[k].value.value))
  {
    assert found[..k + 1][..k] == found[..k];
    assert FoundDirVersions(found[..k + 1]) by {
      assert forall j :: 0 <= j <= k ==> found[..k + 1][j] == found[j];
    }
    assert found[..k + 1][k] == found[k];
  }

  /** Once the first loop has failed on a prefix, it fails the same way on every longer prefix. */
  lemma {:induction false} CollectErrorPersists(found: seq<Found>, n: nat)
    requires FoundDirVersions(found) && n <= |found|
    requires FoundDirVersions(found[..n]) && CollectDirVersions(found[..n]).Err?
    ensures CollectDirVersions(found) == CollectDirVersions(found[..n])
    decreases |found| - n
  {
    if n < |found| {
      assert found[..n + 1][..n] == found[..n];
      assert FoundDirVersions(found[..n + 1]) by {
        assert forall j :: 0 <= j <= n ==> found[..n + 1][j] == found[j];
      }
      CollectErrorPersists(found, n + 1);
    } else {
      assert found[..n] == found;
    }
  }

  /** Once the second loop has failed on a prefix of the directories, it fails on all of them. */
  lemma {:induction false} ScriptsErrorPersists(root: string, dirs: seq<DV.Version>, n: nat, current: DV.Version,
                                                desired: DV.Version, listing: Listing)
    requires forall k :: 0 <= k < |dirs| ==> dirs[k].major.Some?
    requires n <= |dirs|
    requires ScriptsOfDirs(root, dirs[..n], current, desired, listing).Err?
    ensures ScriptsOfDirs(root, dirs, current, desired, listing) == ScriptsOfDirs(root, dirs[..n], current, desired, listing)
    decreases |dirs| - n
  {
    if n < |dirs| {
      assert dirs[..n + 1][..n] == dirs[..n];
      ScriptsErrorPersists(root, dirs, n + 1, current, desired, listing);
    } else {
      assert dirs[..n] == dirs;
    }
  }
}
