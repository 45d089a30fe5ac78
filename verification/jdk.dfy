/**
 * The parts of the Java platform (java.lang.String, java.lang.Integer,
 * java.lang.Character, 32- and 64-bit integer arithmetic) that the
 * repository's code relies on, stated as Dafny functions over unbounded
 * integers and sequences of characters.
 */
module Jdk {

  datatype Option<+T> = None | Some(value: T)

  datatype Result<+T, +E> = Ok(value: T) | Err(error: E)

  // ---------------------------------------------------------------------
  // Fixed-width integers
  // ---------------------------------------------------------------------

  const TWO_32: int := 0x1_0000_0000
  const TWO_64: int := 0x1_0000_0000_0000_0000

  /** A Java `int`. */
  type Int32 = x: int | -0x8000_0000 <= x < 0x8000_0000

  /** A Java `long`. */
  type Int64 = x: int | -0x8000_0000_0000_0000 <= x < 0x8000_0000_0000_0000

  predicate InInt32(x: int) { -0x8000_0000 <= x < 0x8000_0000 }

  predicate InInt64(x: int) { -0x8000_0000_0000_0000 <= x < 0x8000_0000_0000_0000 }

  /** Two's-complement truncation to 32 bits: Java int overflow and `(int)` casts. */
  function Wrap32(x: int): (r: Int32)
    ensures (x - r) % TWO_32 == 0
    ensures InInt32(x) ==> r == x
  {
    var m := x % TWO_32;
    if m < 0x8000_0000 then m else m - TWO_32
  }

  /** Two's-complement truncation to 64 bits: Java long overflow. */
  function Wrap64(x: int): (r: Int64)
    ensures (x - r) % TWO_64 == 0
    ensures InInt64(x) ==> r == x
  {
    var m := x % TWO_64;
    if m < 0x8000_0000_0000_0000 then m else m - TWO_64
  }

  /** Java's `/` for a positive divisor: the quotient is truncated toward zero. */
  function JDiv(a: int, b: int): (q: int)
    requires b > 0
    ensures 0 <= a ==> 0 <= a - q * b < b
    ensures a < 0 ==> -b < a - q * b <= 0
  {
    if a >= 0 then a / b else -((-a) / b)
  }

  function Abs(x: int): (r: nat)
    ensures r == x || r == -x
  {
    if x < 0 then -x else x
  }

  // ---------------------------------------------------------------------
  // Characters
  // ---------------------------------------------------------------------

  /** `Character.isWhitespace`: the space separators other than the no-break spaces, and the ASCII controls 9-13 and 28-31. */
  predicate IsJavaWhitespace(c: char)
  {
    var n := c as int;
    (9 <= n <= 13) || (28 <= n <= 32)
    || n == 0x1680 || (0x2000 <= n <= 0x2006) || (0x2008 <= n <= 0x200A)
    || n == 0x2028 || n == 0x2029 || n == 0x205F || n == 0x3000
  }

  /** The characters `String.trim` removes. */
  predicate IsTrimmed(c: char) { c <= ' ' }

  predicate IsDigit(c: char) { '0' <= c <= '9' }

  function UpperAscii(c: char): (r: char)
    ensures 'a' <= c <= 'z' ==> 'A' <= r <= 'Z'
    ensures !('a' <= c <= 'z') ==> r == c
  {
    if 'a' <= c <= 'z' then (c as int - 32) as char else c
  }

  function LowerAscii(c: char): (r: char)
    ensures 'A' <= c <= 'Z' ==> 'a' <= r <= 'z'
    ensures !('A' <= c <= 'Z') ==> r == c
  {
    if 'A' <= c <= 'Z' then (c as int + 32) as char else c
  }

  /** `String.toUpperCase` restricted to the ASCII letters. */
  function ToUpper(s: string): (r: string)
    ensures |r| == |s|
    ensures forall i :: 0 <= i < |s| ==> r[i] == UpperAscii(s[i])
  {
    if |s| == 0 then [] else [UpperAscii(s[0])] + ToUpper(s[1..])
  }

  /** `String.replace(char, char)`. */
  function ReplaceChar(s: string, from: char, to: char): (r: string)
    ensures |r| == |s|
    ensures forall i :: 0 <= i < |s| ==> r[i] == (if s[i] == from then to else s[i])
  {
    if |s| == 0 then [] else [if s[0] == from then to else s[0]] + ReplaceChar(s[1..], from, to)
  }

  // ---------------------------------------------------------------------
  // Searching
  // ---------------------------------------------------------------------

  /** `s.startsWith(t, i)`. */
  predicate StartsAt(s: string, t: string, i: int)
  {
    0 <= i && i + |t| <= |s| && s[i..i + |t|] == t
  }

  /** `s.indexOf(t, from)` for a non-empty `t`: the first occurrence at or after `from`, or -1. */
  function IndexOf(s: string, t: string, from: int): (r: int)
    requires |t| > 0
    ensures r == -1 || (from <= r && StartsAt(s, t, r))
    ensures forall k :: from <= k && (r == -1 || k < r) ==> !StartsAt(s, t, k)
    decreases |s| - from
  {
    if from < 0 then IndexOf(s, t, 0)
    else if from + |t| > |s| then -1
    else if StartsAt(s, t, from) then from
    else IndexOf(s, t, from + 1)
  }

  /** `s.indexOf(c, from)`: the first `c` at or after `from`, or -1. */
  function IndexOfChar(s: string, c: char, from: nat): (r: int)
    ensures r == -1 || (from <= r < |s| && s[r] == c)
    ensures forall k :: from <= k < |s| && (r == -1 || k < r) ==> s[k] != c
    decreases |s| - from
  {
    if from >= |s| then -1
    else if s[from] == c then from
    else IndexOfChar(s, c, from + 1)
  }

  /** `[a, b]` occurs in `s` at `k`. */
  predicate PairAt(s: string, a: char, b: char, k: int)
  {
    0 <= k < |s| - 1 && s[k] == a && s[k + 1] == b
  }

  /** `s.indexOf(t, from)` for the two-character string `t == [a, b]`. */
  function IndexOfPair(s: string, a: char, b: char, from: nat): (r: int)
    ensures r == -1 || (from <= r && PairAt(s, a, b, r))
    ensures forall k :: from <= k && (r == -1 || k < r) ==> !PairAt(s, a, b, k)
    decreases |s| - from
  {
    if from + 1 >= |s| then -1
    else if PairAt(s, a, b, from) then from
    else IndexOfPair(s, a, b, from + 1)
  }

  /** `s.lastIndexOf(t)`, defined for every `t` (an empty `t` is found at `|s|`). */
  function LastIndexOf(s: string, t: string): (r: int)
    ensures r == -1 || StartsAt(s, t, r)
    ensures forall k :: r < k ==> !StartsAt(s, t, k)
  {
    LastIndexOfAtOrBefore(s, t, |s| - |t|)
  }

  function LastIndexOfAtOrBefore(s: string, t: string, k: int): (r: int)
    requires k <= |s| - |t|
    ensures r == -1 || (r <= k && StartsAt(s, t, r))
    ensures forall j :: r < j <= k ==> !StartsAt(s, t, j)
    decreases k + 1
  {
    if k < 0 then -1
    else if StartsAt(s, t, k) then k
    else LastIndexOfAtOrBefore(s, t, k - 1)
  }

  // ---------------------------------------------------------------------
  // Trimming
  // ---------------------------------------------------------------------

  /** Number of leading characters `String.trim` removes. */
  function Leading(s: string): (n: nat)
    ensures n <= |s|
    ensures forall i :: 0 <= i < n ==> IsTrimmed(s[i])
    ensures n < |s| ==> !IsTrimmed(s[n])
  {
    if |s| == 0 || !IsTrimmed(s[0]) then 0 else 1 + Leading(s[1..])
  }

  /** Number of trailing characters `String.trim` removes. */
  function Trailing(s: string): (n: nat)
    ensures n <= |s|
    ensures forall i :: |s| - n <= i < |s| ==> IsTrimmed(s[i])
    ensures n < |s| ==> !IsTrimmed(s[|s| - n - 1])
  {
    if |s| == 0 || !IsTrimmed(s[|s| - 1]) then 0 else 1 + Trailing(s[..|s| - 1])
  }

  /** `String.trim`: drops every leading and trailing character up to U+0020. */
  function Trim(s: string): (r: string)
    ensures Leading(s) + |r| <= |s|
    ensures r == s[Leading(s)..Leading(s) + |r|]
    ensures r == [] <==> forall i :: 0 <= i < |s| ==> IsTrimmed(s[i])
    ensures r != [] ==> !IsTrimmed(r[0]) && !IsTrimmed(r[|r| - 1])
  {
    var rest := s[Leading(s)..];
    rest[..|rest| - Trailing(rest)]
  }

  /** A string that starts and ends with a character above U+0020 is its own trim. */
  lemma TrimUnpadded(s: string)
    requires s != [] && !IsTrimmed(s[0]) && !IsTrimmed(s[|s| - 1])
    ensures Trim(s) == s
  {
    assert Leading(s) == 0;
    assert s[0..] == s;
  }

  /** A string without any character up to U+0020 is its own trim. */
  lemma TrimNothingToTrim(s: string)
    requires forall i :: 0 <= i < |s| ==> !IsTrimmed(s[i])
    ensures Trim(s) == s
  {
    if s != [] {
      TrimUnpadded(s);
    }
  }

  // ---------------------------------------------------------------------
  // Comparison
  // ---------------------------------------------------------------------

  /** `String.compareTo`: the difference of the first differing characters, else of the lengths. */
  function CompareTo(a: string, b: string): (r: int)
    ensures r == 0 <==> a == b
  {
    if |a| == 0 || |b| == 0 then |a| - |b|
    else if a[0] != b[0] then a[0] as int - b[0] as int
    else CompareTo(a[1..], b[1..])
  }

  lemma {:induction false} CompareToAntisymmetric(a: string, b: string)
    ensures CompareTo(b, a) == -CompareTo(a, b)
  {
    if |a| > 0 && |b| > 0 && a[0] == b[0] {
      CompareToAntisymmetric(a[1..], b[1..]);
    }
  }

  lemma {:induction false} CompareToTransitive(a: string, b: string, c: string)
    requires CompareTo(a, b) <= 0 && CompareTo(b, c) <= 0
    ensures CompareTo(a, c) <= 0
  {
    if |a| > 0 && |b| > 0 && |c| > 0 && a[0] == b[0] && b[0] == c[0] {
      CompareToTransitive(a[1..], b[1..], c[1..]);
    }
  }

  // ---------------------------------------------------------------------
  // Integer formatting and parsing
  // ---------------------------------------------------------------------

  function DigitChar(d: int): (c: char)
    requires 0 <= d < 10
    ensures IsDigit(c) && c as int - '0' as int == d
  {
    ('0' as int + d) as char
  }

  predicate AllDigits(s: string) { forall i :: 0 <= i < |s| ==> IsDigit(s[i]) }

  /** Decimal digits of a natural number, most significant first, no leading zero. */
  function NatToString(n: nat): (r: string)
    ensures |r| > 0 && AllDigits(r)
    ensures |r| > 1 ==> r[0] != '0'
  {
    if n < 10 then [DigitChar(n)] else NatToString(n / 10) + [DigitChar(n % 10)]
  }

  /** `Integer.toString` / `Long.toString` / `StringBuilder.append(int)`. */
  function IntToString(n: int): (r: string)
    ensures |r| > 0
    ensures n < 0 <==> r[0] == '-'
  {
    if n < 0 then "-" + NatToString(-n) else NatToString(n)
  }

  function DigitsValue(s: string): nat
    requires AllDigits(s)
  {
    if |s| == 0 then 0 else DigitsValue(s[..|s| - 1]) * 10 + (s[|s| - 1] as int - '0' as int)
  }

  lemma {:induction false} DigitsValueOfNatToString(n: nat)
    ensures DigitsValue(NatToString(n)) == n
  {
    if n >= 10 {
      var s := NatToString(n);
      assert s[..|s| - 1] == NatToString(n / 10);
      DigitsValueOfNatToString(n / 10);
    }
  }

  /**
   * `Integer.parseInt(s)` over ASCII digits: an optional `+` or `-`, at least
   * one digit, and a value inside the `int` range; anything else is the
   * `NumberFormatException` case, `None`.
   */
  function ParseInt(s: string): (r: Option<Int32>)
    ensures r.Some? ==> |s| > 0 && (AllDigits(s) || ((s[0] == '-' || s[0] == '+') && |s| > 1 && AllDigits(s[1..])))
    ensures r.Some? && AllDigits(s) ==> r.value == DigitsValue(s)
  {
    if |s| == 0 then None
    else if s[0] == '-' || s[0] == '+' then
      var body := s[1..];
      if |body| == 0 || !AllDigits(body) then None
      else
        var v: int := if s[0] == '-' then -(DigitsValue(body) as int) else DigitsValue(body);
        if InInt32(v) then Some(v) else None
    else if !AllDigits(s) then None
    else if DigitsValue(s) < 0x8000_0000 then Some(DigitsValue(s))
    else None
  }

  lemma ParseIntOfIntToString(n: Int32)
    ensures ParseInt(IntToString(n)) == Some(n)
  {
    if n < 0 {
      var s := IntToString(n);
      assert s[1..] == NatToString(-(n as int));
      DigitsValueOfNatToString(-(n as int));
    } else {
      DigitsValueOfNatToString(n);
    }
  }

  // ---------------------------------------------------------------------
  // Splitting on a character class (String.split with a regex such as [.-])
  // ---------------------------------------------------------------------

  predicate NoneIn(s: string, seps: set<char>) { forall i :: 0 <= i < |s| ==> s[i] !in seps }

  /** Every piece between separators, including empty ones. */
  function Pieces(s: string, seps: set<char>): (r: seq<string>)
    ensures |r| >= 1
    ensures forall k :: 0 <= k < |r| ==> NoneIn(r[k], seps)
  {
    if |s| == 0 then [""]
    else
      var rest := Pieces(s[1..], seps);
      if s[0] in seps then [""] + rest else [[s[0]] + rest[0]] + rest[1..]
  }

  function DropTrailingEmpty(p: seq<string>): (r: seq<string>)
    ensures |r| <= |p| && r == p[..|r|]
    ensures r != [] ==> r[|r| - 1] != ""
    ensures forall k :: |r| <= k < |p| ==> p[k] == ""
  {
    if |p| == 0 then []
    else if p[|p| - 1] == "" then DropTrailingEmpty(p[..|p| - 1])
    else p
  }

  /**
   * `s.split(regex)` where the regex matches exactly one character of `seps`:
   * without any separator the result is `[s]` (even for an empty `s`),
   * otherwise the pieces with trailing empty pieces removed.
   */
  function Split(s: string, seps: set<char>): (r: seq<string>)
    ensures NoneIn(s, seps) ==> r == [s]
    ensures forall k :: 0 <= k < |r| ==> NoneIn(r[k], seps)
  {
    if NoneIn(s, seps) then [s] else DropTrailingEmpty(Pieces(s, seps))
  }

  lemma {:induction false} PiecesOfNoSeparator(a: string, seps: set<char>)
    requires NoneIn(a, seps)
    ensures Pieces(a, seps) == [a]
  {
    if |a| > 0 {
      PiecesOfNoSeparator(a[1..], seps);
      assert [a[0]] + a[1..] == a;
    }
  }

  lemma {:induction false} PiecesOfSeparated(a: string, c: char, b: string, seps: set<char>)
    requires NoneIn(a, seps) && c in seps
    ensures Pieces(a + [c] + b, seps) == [a] + Pieces(b, seps)
  {
    var s := a + [c] + b;
    if |a| == 0 {
      assert s[1..] == b;
    } else {
      assert s[1..] == a[1..] + [c] + b;
      PiecesOfSeparated(a[1..], c, b, seps);
      assert [a[0]] + a[1..] == a;
    }
  }
}
