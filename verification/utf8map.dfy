/**
 * `UTF8Map`: a string map filled from text in the Java properties line
 * format: comment lines, blank lines, lines continued by an odd number of
 * trailing backslashes, `key=value`, `key:value` and `key value`-less
 * entries, and backslash escapes including `\uXXXX`.
 */
module UTF8Map {
  import opened Jdk

  const FORM_FEED: char := '\U{000C}'

  /** `WHITE_SPACE_CHARS`. */
  predicate IsWhiteSpace(c: char)
  {
    c == ' ' || c == '\t' || c == '\r' || c == '\n' || c == FORM_FEED
  }

  /** `KEY_VALUE_SEPARATORS`: a plain space is not among them. */
  predicate IsKeyValueSeparator(c: char)
  {
    c == '=' || c == ':' || c == '\t' || c == '\r' || c == '\n' || c == FORM_FEED
  }

  /** `STRICT_KEY_VALUE_SEPARATORS`. */
  predicate IsStrictSeparator(c: char)
  {
    c == '=' || c == ':'
  }

  /**
   * The exceptions loading can raise: `StringIndexOutOfBoundsException`,
   * the `IllegalArgumentException` of a malformed `\uXXXX`, and a `\uXXXX`
   * naming a UTF-16 surrogate, which a Java `char` holds but a model
   * character cannot.
   */
  datatype LoadError = IndexOutOfBounds | MalformedEscape | SurrogateUnit

  // ---------------------------------------------------------------------
  // continueLine
  // ---------------------------------------------------------------------

  /** The number of backslashes `s` ends with. */
  function TrailingBackslashes(s: string): (n: nat)
    ensures n <= |s|
    ensures forall i :: |s| - n <= i < |s| ==> s[i] == '\\'
    ensures n < |s| ==> s[|s| - n - 1] != '\\'
  {
    if s == [] || s[|s| - 1] != '\\' then 0 else 1 + TrailingBackslashes(s[..|s| - 1])
  }

  /** `continueLine`: the line ends in an odd number of backslashes. */
  predicate ContinuesLine(s: string)
  {
    TrailingBackslashes(s) % 2 == 1
  }

  /** The trailing backslashes of `a + b`: those of `b`, and those of `a` too when `b` is all backslashes. */
  lemma {:induction false} TrailingBackslashesConcat(a: string, b: string)
    ensures TrailingBackslashes(a + b)
            == if TrailingBackslashes(b) == |b| then TrailingBackslashes(a) + |b| else TrailingBackslashes(b)
    decreases |b|
  {
    if b == [] {
      assert a + b == a;
    } else if b[|b| - 1] == '\\' {
      var b' := b[..|b| - 1];
      assert (a + b)[..|a + b| - 1] == a + b';
      TrailingBackslashesConcat(a, b');
    }
  }

  // ---------------------------------------------------------------------
  // loadConvert
  // ---------------------------------------------------------------------

  predicate IsHexDigit(c: char)
  {
    '0' <= c <= '9' || 'a' <= c <= 'f' || 'A' <= c <= 'F'
  }

  function HexDigitValue(c: char): (d: nat)
    requires IsHexDigit(c)
    ensures d < 16
  {
    if '0' <= c <= '9' then c as int - '0' as int
    else if 'a' <= c <= 'f' then 10 + c as int - 'a' as int
    else 10 + c as int - 'A' as int
  }

  /** The largest accumulator with which `count` more hex digits still fit in 16 bits. */
  function HexLimit(count: nat): nat
  {
    if count == 0 then 0x10000
    else if count == 1 then 0x1000
    else if count == 2 then 0x100
    else if count == 3 then 0x10
    else if count == 4 then 1
    else 0
  }

  /**
   * The `\uXXXX` digit loop: reads `count` more characters of `t`, each a
   * hex digit in either case, into `acc`. Running out of characters is an
   * index error, a non-hex character a malformed escape, whichever comes first.
   */
  function HexRead(t: string, count: nat, acc: nat): (r: Result<nat, LoadError>)
    ensures r.Ok? <==> count <= |t| && forall i :: 0 <= i < count ==> IsHexDigit(t[i])
    ensures r.Ok? && acc < HexLimit(count) ==> r.value < 0x10000
    ensures r.Err? ==> r.error != SurrogateUnit
    decreases count
  {
    if count == 0 then Ok(acc)
    else if t == [] then Err(IndexOutOfBounds)
    else if !IsHexDigit(t[0]) then Err(MalformedEscape)
    else
      var r := HexRead(t[1..], count - 1, acc * 16 + HexDigitValue(t[0]));
      assert forall i :: 1 <= i < count && i < |t| ==> t[i] == t[1..][i - 1];
      r
  }

  /** A UTF-16 code unit that is half of a surrogate pair. */
  predicate IsSurrogate(v: int)
  {
    0xD800 <= v < 0xE000
  }

  /** The character a `\c` escape other than `\u` stands for. */
  function EscapedChar(c: char): (r: char)
    ensures c == 't' ==> r == '\t'
    ensures c == 'r' ==> r == '\r'
    ensures c == 'n' ==> r == '\n'
    ensures c == 'f' ==> r == FORM_FEED
    ensures c !in "trnf" ==> r == c
  {
    if c == 't' then '\t'
    else if c == 'r' then '\r'
    else if c == 'n' then '\n'
    else if c == 'f' then FORM_FEED
    else c
  }

  /** `c` in front of a successful result; an error stays. */
  function Prepend(c: char, r: Result<string, LoadError>): (r': Result<string, LoadError>)
    ensures r.Ok? ==> r' == Ok([c] + r.value)
    ensures r.Err? ==> r' == r
  {
    if r.Ok? then Ok([c] + r.value) else r
  }

  /**
   * `loadConvert`: copies characters, decoding `\uXXXX` into the character
   * with that code, `\t`, `\r`, `\n`, `\f` into control characters and any
   * other `\c` into `c`. A backslash at the very end, or a `\u` with fewer
   * than four characters after it, reads past the end.
   */
  function Unescape(t: string): (r: Result<string, LoadError>)
    ensures r.Ok? ==> |r.value| <= |t|
    ensures (forall i :: 0 <= i < |t| ==> t[i] != '\\') ==> r == Ok(t)
    decreases |t|
  {
    if t == [] then Ok([])
    else if t[0] != '\\' then
      assert t == [t[0]] + t[1..];
      Prepend(t[0], Unescape(t[1..]))
    else if |t| == 1 then Err(IndexOutOfBounds)
    else if t[1] == 'u' then
      match HexRead(t[2..], 4, 0)
      case Err(e) => Err(e)
      case Ok(v) =>
        if IsSurrogate(v) then Err(SurrogateUnit)
        else Prepend(v as char, Unescape(t[6..]))
    else Prepend(EscapedChar(t[1]), Unescape(t[2..]))
  }

  // ---------------------------------------------------------------------
  // The key and the value of a line
  // ---------------------------------------------------------------------

  /** How many characters of `WHITE_SPACE_CHARS` `t` starts with. */
  function LeadingWhiteSpace(t: string): (n: nat)
    ensures n <= |t|
    ensures forall i :: 0 <= i < n ==> IsWhiteSpace(t[i])
    ensures n < |t| ==> !IsWhiteSpace(t[n])
  {
    if t == [] || !IsWhiteSpace(t[0]) then 0 else 1 + LeadingWhiteSpace(t[1..])
  }

  /**
   * The separator scan, from the start of the key: the offset of the first
   * key-value separator not escaped by a backslash. A backslash skips the
   * character after it, so a backslash in last place leaves the scan one
   * past the end.
   */
  function SeparatorOffset(t: string): (n: nat)
    ensures n <= |t| + 1
    decreases |t|
  {
    if t == [] then 0
    else if t[0] == '\\' then (if |t| == 1 then 2 else 2 + SeparatorOffset(t[2..]))
    else if IsKeyValueSeparator(t[0]) then 0
    else 1 + SeparatorOffset(t[1..])
  }

  /**
   * The scan stops at a key-value separator, and every separator it passes
   * on the way is the character right after a backslash.
   */
  lemma {:induction false} SeparatorFound(t: string)
    ensures SeparatorOffset(t) < |t| ==> IsKeyValueSeparator(t[SeparatorOffset(t)])
    ensures forall k :: 0 <= k < SeparatorOffset(t) && k < |t| && IsKeyValueSeparator(t[k]) ==> k > 0 && t[k - 1] == '\\'
    decreases |t|
  {
    if t != [] && !IsKeyValueSeparator(t[0]) && (t[0] != '\\' || |t| > 1) {
      var j := if t[0] == '\\' then 2 else 1;
      var u := t[j..];
      SeparatorFound(u);
      assert SeparatorOffset(t) == j + SeparatorOffset(u);
      forall k | 0 <= k < SeparatorOffset(t) && k < |t| && IsKeyValueSeparator(t[k])
        ensures k > 0 && t[k - 1] == '\\'
      {
        if k >= j {
          assert u[k - j] == t[k];
          if k > j {
            assert u[k - j - 1] == t[k - 1];
          }
        }
      }
      if SeparatorOffset(t) < |t| {
        assert u[SeparatorOffset(u)] == t[SeparatorOffset(t)];
      }
    }
  }

  /** From the separator on: whitespace, at most one `=` or `:`, and whitespace again. */
  function ValueOffset(r: string): (n: nat)
    ensures n <= |r|
  {
    var a := LeadingWhiteSpace(r);
    if a < |r| && IsStrictSeparator(r[a]) then a + 1 + LeadingWhiteSpace(r[a + 1..]) else a
  }

  /**
   * One logical line (continuations already joined) as `load` reads it:
   * nothing for a blank line, else the key before the separator and the
   * value after it (empty without a separator), both trimmed and then
   * unescaped, the key first.
   */
  function ParseLine(line: string): (r: Result<Option<(string, string)>, LoadError>)
  {
    var keyStart := LeadingWhiteSpace(line);
    if keyStart == |line| then Ok(None)
    else SplitLine(line, keyStart, keyStart + SeparatorOffset(line[keyStart..]))
  }

  /** A line yields no entry exactly when it is all whitespace. */
  lemma ParseLineBlank(line: string)
    ensures ParseLine(line) == Ok(None) <==> forall i :: 0 <= i < |line| ==> IsWhiteSpace(line[i])
  {
    if LeadingWhiteSpace(line) < |line| {
      assert !IsWhiteSpace(line[LeadingWhiteSpace(line)]);
    }
  }

  /**
   * The entry of a line whose key starts at `keyStart` and whose separator
   * scan stopped at `separatorIndex`: the key's substring reads past the
   * end when the scan did.
   */
  function SplitLine(line: string, keyStart: nat, separatorIndex: nat): (r: Result<Option<(string, string)>, LoadError>)
    requires keyStart <= separatorIndex
    ensures r != Ok(None)
  {
    if separatorIndex > |line| then Err(IndexOutOfBounds)
    else
      var valueIndex := separatorIndex + ValueOffset(line[separatorIndex..]);
      var key := Trim(line[keyStart..separatorIndex]);
      var value := if separatorIndex < |line| then Trim(line[valueIndex..]) else "";
      ConvertEntry(key, value)
  }

  /** `loadConvert` on the key, then on the value; the first exception wins. */
  function ConvertEntry(key: string, value: string): (r: Result<Option<(string, string)>, LoadError>)
    ensures r.Ok? <==> Unescape(key).Ok? && Unescape(value).Ok?
    ensures r.Ok? ==> r.value == Some((Unescape(key).value, Unescape(value).value))
    ensures Unescape(key).Err? ==> r == Err(Unescape(key).error)
  {
    match Unescape(key)
    case Err(e) => Err(e)
    case Ok(k) =>
      match Unescape(value)
      case Err(e) => Err(e)
      case Ok(v) => Ok(Some((k, v)))
  }

  // ---------------------------------------------------------------------
  // Logical lines and load
  // ---------------------------------------------------------------------

  /** The next line with its leading whitespace removed. */
  function StripLeadingWhiteSpace(t: string): (r: string)
    ensures r == t[LeadingWhiteSpace(t)..]
  {
    t[LeadingWhiteSpace(t)..]
  }

  /** Dropping the last of an odd run of trailing backslashes leaves an even run. */
  lemma LoppedLineEnds(line: string)
    requires ContinuesLine(line)
    ensures !ContinuesLine(line[..|line| - 1])
  {
  }

  /**
   * The continuation loop: while the line ends in an odd number of
   * backslashes, drop one and append the next line without its leading
   * whitespace (an empty line once the input is exhausted). Gives the
   * logical line and the lines still unread.
   */
  function JoinContinued(line: string, rest: seq<string>): (r: (string, seq<string>))
    ensures |r.1| <= |rest| && r.1 == rest[|rest| - |r.1|..]
    ensures !ContinuesLine(r.0)
    ensures !ContinuesLine(line) ==> r == (line, rest)
    decreases |rest|, if ContinuesLine(line) then 1 else 0
  {
    if !ContinuesLine(line) then (line, rest)
    else
      var nextLine := if rest == [] then "" else rest[0];
      var remaining := if rest == [] then [] else rest[1..];
      var lopped := line[..|line| - 1];
      LoppedLineEnds(line);
      assert rest == [] ==> lopped + StripLeadingWhiteSpace(nextLine) == lopped;
      JoinContinued(lopped + StripLeadingWhiteSpace(nextLine), remaining)
  }

  /** A line whose first character is `#` or `!`. */
  predicate IsCommentLine(line: string)
  {
    |line| > 0 && (line[0] == '#' || line[0] == '!')
  }

  /** The map after `load`, and the exception that stopped it, if any. */
  datatype LoadOutcome = LoadOutcome(entries: map<string, string>, error: Option<LoadError>)

  /**
   * `load` from `entries` on: empty lines and comment lines are skipped
   * (a comment line is never continued); any other line is joined with its
   * continuations and parsed, and its entry put into the map. An exception
   * stops loading with the entries put so far.
   */
  function LoadLines(lines: seq<string>, entries: map<string, string>): (r: LoadOutcome)
    ensures entries.Keys <= r.entries.Keys
    decreases |lines|
  {
    if lines == [] then LoadOutcome(entries, None)
    else if |lines[0]| == 0 || IsCommentLine(lines[0]) then LoadLines(lines[1..], entries)
    else
      var joined := JoinContinued(lines[0], lines[1..]);
      match ParseLine(joined.0)
      case Err(e) => LoadOutcome(entries, Some(e))
      case Ok(None) => LoadLines(joined.1, entries)
      case Ok(Some(kv)) => LoadLines(joined.1, entries[kv.0 := kv.1])
  }

  // ---------------------------------------------------------------------
  // Storing: the inverse the parser is checked against
  // ---------------------------------------------------------------------

  function HexDigitChar(d: nat): (c: char)
    requires d < 16
    ensures IsHexDigit(c) && HexDigitValue(c) == d
  {
    if d < 10 then ('0' as int + d) as char else ('A' as int + d - 10) as char
  }

  /**
   * How a character is written so that loading gives it back: a backslash
   * doubled, tab, carriage return, newline and form feed as `\t`, `\r`,
   * `\n`, `\f`, any other character up to U+0020 as `\u00XX`, and the
   * separators and comment marks `=`, `:`, `#`, `!` behind a backslash.
   */
  function EscapeChar(c: char): (e: string)
    ensures 1 <= |e| <= 6
    ensures forall i :: 0 <= i < |e| ==> !IsTrimmed(e[i])
    ensures e[0] != '#' && e[0] != '!'
    ensures e[|e| - 1] == '\\' ==> e == "\\\\"
  {
    if c == '\\' then "\\\\"
    else if c == '\t' then "\\t"
    else if c == '\r' then "\\r"
    else if c == '\n' then "\\n"
    else if c == FORM_FEED then "\\f"
    else if IsTrimmed(c) then ['\\', 'u', '0', '0', HexDigitChar(c as int / 16), HexDigitChar(c as int % 16)]
    else if c == '=' || c == ':' || c == '#' || c == '!' then ['\\', c]
    else [c]
  }

  /** A whole string, character by character. */
  function Escape(s: string): (e: string)
    ensures forall i :: 0 <= i < |e| ==> !IsTrimmed(e[i])
    ensures e == [] <==> s == []
  {
    if s == [] then [] else EscapeChar(s[0]) + Escape(s[1..])
  }

  /** The line storing one entry: the escaped key, `=`, the escaped value. */
  function StoreLine(key: string, value: string): string
  {
    Escape(key) + "=" + Escape(value)
  }

  lemma UnescapePlain(c: char, rest: string)
    requires c != '\\'
    ensures Unescape([c] + rest) == Prepend(c, Unescape(rest))
  {
    assert ([c] + rest)[1..] == rest;
  }

  lemma UnescapePair(x: char, rest: string)
    requires x != 'u'
    ensures Unescape(['\\', x] + rest) == Prepend(EscapedChar(x), Unescape(rest))
  {
    assert (['\\', x] + rest)[2..] == rest;
  }

  lemma UnescapeUnicode(hi: nat, lo: nat, rest: string)
    requires hi <= 2 && lo < 16
    ensures Unescape(['\\', 'u', '0', '0', HexDigitChar(hi), HexDigitChar(lo)] + rest)
            == Prepend((hi * 16 + lo) as char, Unescape(rest))
  {
    var t := ['\\', 'u', '0', '0', HexDigitChar(hi), HexDigitChar(lo)] + rest;
    var u := t[2..];
    assert u[3..][1..] == rest[..];
    assert HexRead(u[3..], 1, hi) == Ok(hi * 16 + lo);
    assert u[2..][1..] == u[3..];
    assert HexRead(u[2..], 2, 0) == Ok(hi * 16 + lo);
    assert u[1..][1..] == u[2..];
    assert HexRead(u, 4, 0) == Ok(hi * 16 + lo);
    assert t[6..] == rest;
  }

  /** Loading one escaped character decodes exactly that character. */
  lemma UnescapeEscapeChar(c: char, rest: string)
    ensures Unescape(EscapeChar(c) + rest) == Prepend(c, Unescape(rest))
  {
    if c == '\\' || c == '\t' || c == '\r' || c == '\n' || c == FORM_FEED {
      UnescapePair(EscapeChar(c)[1], rest);
    } else if IsTrimmed(c) {
      UnescapeUnicode(c as int / 16, c as int % 16, rest);
    } else if c == '=' || c == ':' || c == '#' || c == '!' {
      UnescapePair(c, rest);
    } else {
      UnescapePlain(c, rest);
    }
  }

  /** Loading gives back every escaped string: `loadConvert` inverts `Escape`. */
  lemma {:induction false} UnescapeEscape(s: string)
    ensures Unescape(Escape(s)) == Ok(s)
  {
    if s != [] {
      UnescapeEscape(s[1..]);
      UnescapeEscapeChar(s[0], Escape(s[1..]));
      assert [s[0]] + s[1..] == s;
    }
  }

  lemma SeparatorOffsetPlain(c: char, t: string)
    requires c != '\\' && !IsKeyValueSeparator(c)
    ensures SeparatorOffset([c] + t) == 1 + SeparatorOffset(t)
  {
    assert ([c] + t)[1..] == t;
  }

  lemma SeparatorOffsetPair(x: char, t: string)
    ensures SeparatorOffset(['\\', x] + t) == 2 + SeparatorOffset(t)
  {
    assert (['\\', x] + t)[2..] == t;
  }

  lemma SeparatorOffsetUnicode(x: char, y: char, t: string)
    requires IsHexDigit(x) && IsHexDigit(y)
    ensures SeparatorOffset(['\\', 'u', '0', '0', x, y] + t) == 6 + SeparatorOffset(t)
  {
    var t4 := [y] + t;
    var t3 := [x] + t4;
    var t2 := ['0'] + t3;
    var t1 := ['0'] + t2;
    SeparatorOffsetPlain(y, t);
    SeparatorOffsetPlain(x, t4);
    SeparatorOffsetPlain('0', t3);
    SeparatorOffsetPlain('0', t2);
    SeparatorOffsetPair('u', t1);
    assert ['\\', 'u', '0', '0', x, y] + t == ['\\', 'u'] + t1;
  }

  /** The separator scan steps over one escaped character as a whole. */
  lemma SeparatorOffsetEscapeChar(c: char, t: string)
    ensures SeparatorOffset(EscapeChar(c) + t) == |EscapeChar(c)| + SeparatorOffset(t)
  {
    if c == '\\' || c == '\t' || c == '\r' || c == '\n' || c == FORM_FEED {
      SeparatorOffsetPair(EscapeChar(c)[1], t);
    } else if IsTrimmed(c) {
      SeparatorOffsetUnicode(HexDigitChar(c as int / 16), HexDigitChar(c as int % 16), t);
    } else if c == '=' || c == ':' || c == '#' || c == '!' {
      SeparatorOffsetPair(c, t);
    } else {
      SeparatorOffsetPlain(c, t);
    }
  }

  /** The separator scan steps over an escaped string as a whole. */
  lemma {:induction false} SeparatorOffsetEscape(s: string, t: string)
    ensures SeparatorOffset(Escape(s) + t) == |Escape(s)| + SeparatorOffset(t)
  {
    if s == [] {
      assert Escape(s) + t == t;
    } else {
      var e := EscapeChar(s[0]);
      var rest := Escape(s[1..]);
      SeparatorOffsetEscape(s[1..], t);
      SeparatorOffsetEscapeChar(s[0], rest + t);
      assert Escape(s) + t == e + (rest + t);
    }
  }

  /** An escaped character ends in no backslash or in the two of an escaped backslash. */
  lemma EscapeCharEvenBackslashes(c: char)
    ensures TrailingBackslashes(EscapeChar(c)) % 2 == 0
  {
    var e := EscapeChar(c);
    if e[|e| - 1] == '\\' {
      assert e[..1] == "\\" && e[..1][..0] == [];
      assert TrailingBackslashes(e) == 2;
    }
  }

  /** An escaped string ends in an even number of backslashes, so it never continues. */
  lemma {:induction false} EscapeEvenBackslashes(s: string)
    ensures TrailingBackslashes(Escape(s)) % 2 == 0
  {
    if s != [] {
      var e, t := EscapeChar(s[0]), Escape(s[1..]);
      assert Escape(s) == e + t;
      EscapeEvenBackslashes(s[1..]);
      EscapeCharEvenBackslashes(s[0]);
      EvenConcat(e, t);
    }
  }

  /** Two strings that each end in an even number of backslashes make one that does too. */
  lemma EvenConcat(a: string, b: string)
    requires TrailingBackslashes(a) % 2 == 0 && TrailingBackslashes(b) % 2 == 0
    ensures TrailingBackslashes(a + b) % 2 == 0
  {
    TrailingBackslashesConcat(a, b);
  }

  /** A stored entry is one line that is neither empty nor a comment and needs no continuation. */
  lemma StoreLineShape(key: string, value: string)
    ensures var line := StoreLine(key, value);
            |line| > 0 && !IsCommentLine(line) && !ContinuesLine(line)
  {
    StoreLineStart(key, value);
    StoreLineEven(key, value);
  }

  /** A stored line starts with the first escaped character of the key, or with `=`. */
  lemma StoreLineStart(key: string, value: string)
    ensures var line := StoreLine(key, value);
            |line| > 0 && line[0] != '#' && line[0] != '!'
  {
    var line := StoreLine(key, value);
    if key != [] {
      assert Escape(key) == EscapeChar(key[0]) + Escape(key[1..]);
      assert line[0] == EscapeChar(key[0])[0];
    } else {
      assert line[0] == '=';
    }
  }

  /** A stored line ends in an even number of backslashes. */
  lemma StoreLineEven(key: string, value: string)
    ensures TrailingBackslashes(StoreLine(key, value)) % 2 == 0
  {
    var head, ev := Escape(key) + "=", Escape(value);
    assert StoreLine(key, value) == head + ev;
    assert TrailingBackslashes(head) == 0;
    EscapeEvenBackslashes(value);
    EvenConcat(head, ev);
  }

  /** A line with its key at the start and a one-character separator at `sep`. */
  lemma ParseLineSplitAt(line: string, sep: nat)
    requires |line| > 0 && LeadingWhiteSpace(line) == 0
    requires SeparatorOffset(line) == sep < |line| && ValueOffset(line[sep..]) == 1
    ensures ParseLine(line) == ConvertEntry(Trim(line[..sep]), Trim(line[sep + 1..]))
  {
    assert line[0..] == line;
    assert line[0..sep] == line[..sep];
  }

  /** The positions in `k=v` when neither side has a character up to U+0020. */
  lemma PlainEntryPositions(k: string, v: string)
    requires forall i :: 0 <= i < |k| ==> !IsTrimmed(k[i])
    requires forall i :: 0 <= i < |v| ==> !IsTrimmed(v[i])
    ensures var line := k + "=" + v;
            LeadingWhiteSpace(line) == 0 && ValueOffset(line[|k|..]) == 1
            && line[..|k|] == k && line[|k| + 1..] == v
  {
    var line := k + "=" + v;
    assert !IsTrimmed(line[0]);
    assert line[|k|..] == "=" + v;
    if v != [] {
      assert !IsTrimmed(v[0]);
    }
    assert LeadingWhiteSpace(v) == 0;
  }

  /**
   * `k=v`, where neither side has a character up to U+0020 and the scan
   * of the key stops at the `=`, splits into `k` and `v`.
   */
  lemma ParseLineOfPlainEntry(k: string, v: string)
    requires forall i :: 0 <= i < |k| ==> !IsTrimmed(k[i])
    requires forall i :: 0 <= i < |v| ==> !IsTrimmed(v[i])
    requires SeparatorOffset(k + ("=" + v)) == |k|
    ensures ParseLine(k + "=" + v) == ConvertEntry(k, v)
  {
    var line := k + "=" + v;
    assert line == k + ("=" + v);
    PlainEntryPositions(k, v);
    ParseLineSplitAt(line, |k|);
    TrimNothingToTrim(k);
    TrimNothingToTrim(v);
  }

  /** A stored line splits at its `=` into the escaped key and the escaped value. */
  lemma StoreLineSplits(key: string, value: string)
    ensures ParseLine(StoreLine(key, value)) == ConvertEntry(Escape(key), Escape(value))
  {
    SeparatorOffsetEscape(key, "=" + Escape(value));
    ParseLineOfPlainEntry(Escape(key), Escape(value));
  }

  /** A stored entry parses back to the same key and value. */
  lemma StoreLineParses(key: string, value: string)
    ensures ParseLine(StoreLine(key, value)) == Ok(Some((key, value)))
  {
    StoreLineSplits(key, value);
    UnescapeEscape(key);
    UnescapeEscape(value);
  }

  /** Entries stored one per line, in order. */
  function StoreLines(pairs: seq<(string, string)>): (lines: seq<string>)
    ensures |lines| == |pairs|
  {
    if pairs == [] then [] else [StoreLine(pairs[0].0, pairs[0].1)] + StoreLines(pairs[1..])
  }

  /** `put` of each pair in turn. */
  function PutAll(m: map<string, string>, pairs: seq<(string, string)>): map<string, string>
    decreases |pairs|
  {
    if pairs == [] then m else PutAll(m[pairs[0].0 := pairs[0].1], pairs[1..])
  }

  /**
   * Loading stored entries puts every one of them, in order, with no
   * exception: a later line with the same key overwrites an earlier one.
   */
  lemma {:induction false} LoadStoredLines(pairs: seq<(string, string)>, m: map<string, string>)
    ensures LoadLines(StoreLines(pairs), m) == LoadOutcome(PutAll(m, pairs), None)
  {
    if pairs != [] {
      var lines := StoreLines(pairs);
      var line := StoreLine(pairs[0].0, pairs[0].1);
      assert lines[0] == line && lines[1..] == StoreLines(pairs[1..]);
      StoreLineShape(pairs[0].0, pairs[0].1);
      StoreLineParses(pairs[0].0, pairs[0].1);
      LoadStoredLines(pairs[1..], m[pairs[0].0 := pairs[0].1]);
    }
  }

  /** Of two lines with the same key, the later one's value is kept. */
  lemma LaterLineOverwrites(key: string, first: string, second: string, m: map<string, string>)
    ensures LoadLines([StoreLine(key, first), StoreLine(key, second)], m) == LoadOutcome(m[key := second], None)
  {
    var pairs := [(key, first), (key, second)];
    LoadStoredLines(pairs, m);
    TwoPairs(pairs, m);
  }

  lemma TwoPairs(pairs: seq<(string, string)>, m: map<string, string>)
    requires |pairs| == 2 && pairs[0].0 == pairs[1].0
    ensures StoreLines(pairs) == [StoreLine(pairs[0].0, pairs[0].1), StoreLine(pairs[1].0, pairs[1].1)]
    ensures PutAll(m, pairs) == m[pairs[1].0 := pairs[1].1]
  {
    assert pairs[1..][1..] == [];
    assert PutAll(m, pairs) == PutAll(m[pairs[0].0 := pairs[0].1], pairs[1..]);
  }

  /** A comment line, or a line of whitespace only, adds no entry and raises nothing. */
  lemma SkippedLineAddsNothing(line: string, rest: seq<string>, entries: map<string, string>)
    requires IsCommentLine(line) || forall i :: 0 <= i < |line| ==> IsWhiteSpace(line[i])
    ensures LoadLines([line] + rest, entries) == LoadLines(rest, entries)
  {
    assert ([line] + rest)[0] == line && ([line] + rest)[1..] == rest;
    if !IsCommentLine(line) && |line| > 0 {
      assert line[|line| - 1] != '\\';
    }
  }

  /**
   * With an even number of trailing backslashes, the separator scan ends
   * within the line: a backslash it skips never lies past the end.
   */
  lemma {:induction false} SeparatorWithinLine(t: string)
    requires !ContinuesLine(t)
    ensures SeparatorOffset(t) <= |t|
    decreases |t|
  {
    if t != [] && !IsKeyValueSeparator(t[0]) && (t[0] != '\\' || |t| > 1) {
      var k := if t[0] == '\\' then 2 else 1;
      SkipKeepsEven(t, k);
      SeparatorWithinLine(t[k..]);
    }
  }

  /** Skipping one plain character, or a backslash and the character it escapes, keeps a line from continuing. */
  lemma SkipKeepsEven(t: string, k: nat)
    requires k <= |t| && ((k == 1 && t[0] != '\\') || (k == 2 && t[0] == '\\'))
    requires !ContinuesLine(t)
    ensures !ContinuesLine(t[k..])
  {
    TrailingBackslashesConcat(t[..k], t[k..]);
    assert t[..k] + t[k..] == t;
    if k == 2 && t[1] == '\\' {
      assert TrailingBackslashes(t[..k]) == 2 by { assert t[..k][..1] == [t[0]]; }
    } else {
      assert TrailingBackslashes(t[..k]) == 0 by {
        if k == 2 { assert t[..k][..1] == [t[0]]; }
      }
    }
  }

  /**
   * After continuation lines are joined, the key's substring never reads past
   * the end of the line: a line can then fail only in `loadConvert`.
   */
  lemma JoinedLineKeyInBounds(line: string)
    requires !ContinuesLine(line)
    requires LeadingWhiteSpace(line) < |line|
    ensures LeadingWhiteSpace(line) + SeparatorOffset(line[LeadingWhiteSpace(line)..]) <= |line|
  {
    var ks := LeadingWhiteSpace(line);
    KeyKeepsTrailingBackslashes(line, ks);
    SeparatorWithinLine(line[ks..]);
  }

  /** Dropping leading whitespace keeps the trailing backslashes of a line that is not all whitespace. */
  lemma KeyKeepsTrailingBackslashes(line: string, ks: nat)
    requires ks < |line| && forall i :: 0 <= i < ks ==> IsWhiteSpace(line[i])
    ensures TrailingBackslashes(line[ks..]) == TrailingBackslashes(line)
  {
    var w := line[..ks];
    var u := line[ks..];
    TrailingBackslashesConcat(w, u);
    assert w + u == line;
    if ks > 0 {
      assert w[ks - 1] == line[ks - 1];
      assert TrailingBackslashes(w) == 0;
    }
  }

  /** A plain space does not separate: `a b` is a key with an empty value. */
  lemma SpaceIsNotSeparator()
    ensures ParseLine("a b") == Ok(Some(("a b", "")))
  {
    var line := "a b";
    assert line[1..][1..][1..] == [];
    assert SeparatorOffset(line) == 3;
    assert line[0..3] == line;
    TrimUnpadded(line);
  }

  /**
   * The key is trimmed before `loadConvert`, so a backslash that escaped a
   * trailing space is left last and reads past the end.
   */
  lemma EscapedTrailingSpaceReadsPastEnd()
    ensures ParseLine("a\\ =b") == Err(IndexOutOfBounds)
  {
    var line := "a\\ =b";
    assert LeadingWhiteSpace(line) == 0;
    EscapedSpaceSeparator();
    assert Unescape(Trim(line[..3])) == Err(IndexOutOfBounds) by {
      assert line[..3] == "a\\ ";
      EscapedSpaceTrimmed();
      DanglingBackslash();
    }
    KeyFailsFirst(line, 3);
  }

  /** A line whose key cannot be converted fails with the key's exception, whatever its value. */
  lemma KeyFailsFirst(line: string, sep: nat)
    requires 0 == LeadingWhiteSpace(line) < |line|
    requires SeparatorOffset(line) == sep <= |line|
    requires Unescape(Trim(line[..sep])).Err?
    ensures ParseLine(line) == Err(Unescape(Trim(line[..sep])).error)
  {
    assert line[0..] == line && line[0..sep] == line[..sep];
    ParseLineAt(line, 0, sep);
  }

  lemma EscapedSpaceSeparator()
    ensures SeparatorOffset("a\\ =b") == 3
  {
    var line := "a\\ =b";
    assert line[1..] == "\\ =b" && line[1..][2..] == "=b";
  }

  lemma EscapedSpaceTrimmed()
    ensures Trim("a\\ ") == "a\\"
  {
    assert Leading("a\\ ") == 0 && Trailing("a\\ ") == 1;
    assert "a\\ "[0..2] == "a\\";
  }

  /** A backslash at the end of the text reads past its end. */
  lemma DanglingBackslash()
    ensures Unescape("a\\") == Err(IndexOutOfBounds)
  {
    assert "a\\"[1..] == "\\";
  }

  /** `\uXXXX` reads hex digits of either case. */
  lemma UnicodeEscapeEitherCase()
    ensures Unescape("\\u00e9") == Ok("\U{00E9}")
    ensures Unescape("\\u00E9") == Ok("\U{00E9}")
  {
    assert HexRead("9", 1, 0xE) == Ok(0xE9) by { assert "9"[1..] == []; }
    assert HexRead("e9", 2, 0) == Ok(0xE9) by { assert "e9"[1..] == "9"; }
    assert HexRead("00e9", 4, 0) == Ok(0xE9) by { assert "00e9"[1..] == "0e9" && "0e9"[1..] == "e9"; }
    UnescapeLoneUnicode("\\u00e9", 0xE9);
    assert HexRead("E9", 2, 0) == Ok(0xE9) by { assert "E9"[1..] == "9"; }
    assert HexRead("00E9", 4, 0) == Ok(0xE9) by { assert "00E9"[1..] == "0E9" && "0E9"[1..] == "E9"; }
    UnescapeLoneUnicode("\\u00E9", 0xE9);
  }

  /** A non-hex digit after `\u` is a malformed escape; too few characters read past the end. */
  lemma BadUnicodeEscapes()
    ensures Unescape("\\u12G4") == Err(MalformedEscape)
    ensures Unescape("\\u12") == Err(IndexOutOfBounds)
  {
    assert HexRead("12G4", 4, 0) == Err(MalformedEscape) by {
      assert "12G4"[1..] == "2G4" && "2G4"[1..] == "G4";
    }
    assert "\\u12G4"[2..] == "12G4";
    assert HexRead("12", 4, 0) == Err(IndexOutOfBounds) by {
      assert "12"[1..] == "2" && "2"[1..] == [];
    }
    assert "\\u12"[2..] == "12";
  }

  /** A string that is one `\uXXXX` escape of a non-surrogate decodes to that one character. */
  lemma UnescapeLoneUnicode(t: string, v: nat)
    requires |t| == 6 && t[0] == '\\' && t[1] == 'u'
    requires HexRead(t[2..], 4, 0) == Ok(v) && v < 0x10000 && !IsSurrogate(v)
    ensures Unescape(t) == Ok([v as char])
  {
    assert t[6..] == [];
    assert Unescape(t[6..]) == Ok([]);
    assert [v as char] + [] == [v as char];
  }

  /**
   * A line `a\` continued by `w + c`, where `w` is whitespace and `c` starts
   * without whitespace and ends without a backslash, joins into `a + c`.
   */
  lemma ContinuedLineJoins(a: string, w: string, c: string, rest: seq<string>)
    requires TrailingBackslashes(a) == 0
    requires forall i :: 0 <= i < |w| ==> IsWhiteSpace(w[i])
    requires |c| > 0 && !IsWhiteSpace(c[0]) && c[|c| - 1] != '\\'
    ensures JoinContinued(a + "\\", [w + c] + rest) == (a + c, rest)
  {
    assert !ContinuesLine(a + c) by {
      assert (a + c)[|a + c| - 1] == c[|c| - 1];
      PlainEndDoesNotContinue(a + c);
    }
    var line, next := a + "\\", w + c;
    assert ContinuesLine(line) by {
      OneMoreBackslash(a);
    }
    assert next[0..] == next && next[|w|] == c[0];
    LeadingWhiteSpaceEndsAt(next, 0, |w|);
    assert ([next] + rest)[0] == next && ([next] + rest)[1..] == rest;
    assert line[..|line| - 1] == a;
    JoinContinuedStep(line, [next] + rest, a, next, rest, |w|);
    assert next[|w|..] == c;
  }

  /** A backslash after a string that ends in none is a line's single trailing backslash. */
  lemma OneMoreBackslash(a: string)
    requires TrailingBackslashes(a) == 0
    ensures TrailingBackslashes(a + "\\") == 1
  {
    var s := a + "\\";
    assert s[|s| - 1] == '\\' && s[..|s| - 1] == a;
  }

  /** A line that does not end in a backslash does not continue. */
  lemma PlainEndDoesNotContinue(s: string)
    requires |s| > 0 && s[|s| - 1] != '\\'
    ensures !ContinuesLine(s)
  {
  }

  // ---------------------------------------------------------------------
  // The loops of the class, each proved against the functions above
  // ---------------------------------------------------------------------

  /** `continueLine`: counts the backslashes from the end of the line. */
  method ContinueLine(line: string) returns (r: bool)
    ensures r == ContinuesLine(line)
  {
    var slashCount := 0;
    var index := |line| - 1;
    while index >= 0 && line[index] == '\\'
      invariant -1 <= index < |line|
      invariant slashCount == |line| - 1 - index
      invariant forall j :: index < j < |line| ==> line[j] == '\\'
      decreases index
    {
      slashCount := slashCount + 1;
      index := index - 1;
    }
    assert slashCount == TrailingBackslashes(line);
    r := slashCount % 2 == 1;
  }

  /** A whitespace run starting at `from` ends where `LeadingWhiteSpace` says. */
  lemma LeadingWhiteSpaceEndsAt(t: string, from: nat, i: nat)
    requires from <= i <= |t|
    requires forall j :: from <= j < i ==> IsWhiteSpace(t[j])
    requires i == |t| || !IsWhiteSpace(t[i])
    ensures i == from + LeadingWhiteSpace(t[from..])
  {
  }

  /** The whitespace-skipping loops of `load`: the first index from `from` on that is not whitespace. */
  method SkipWhiteSpace(t: string, from: nat) returns (i: nat)
    requires from <= |t|
    ensures i == from + LeadingWhiteSpace(t[from..])
  {
    i := from;
    while i < |t| && IsWhiteSpace(t[i])
      invariant from <= i <= |t|
      invariant forall j :: from <= j < i ==> IsWhiteSpace(t[j])
      decreases |t| - i
    {
      i := i + 1;
    }
    LeadingWhiteSpaceEndsAt(t, from, i);
  }

  /** One step of the separator scan at index `i`. */
  lemma SeparatorOffsetAt(t: string, i: nat)
    requires i < |t|
    ensures t[i] == '\\' && i + 1 < |t| ==> SeparatorOffset(t[i..]) == 2 + SeparatorOffset(t[i + 2..])
    ensures t[i] == '\\' && i + 1 == |t| ==> SeparatorOffset(t[i..]) == 2
    ensures t[i] != '\\' && !IsKeyValueSeparator(t[i]) ==> SeparatorOffset(t[i..]) == 1 + SeparatorOffset(t[i + 1..])
  {
    assert t[i..][1..] == t[i + 1..];
    if i + 1 < |t| {
      assert t[i..][2..] == t[i + 2..];
    }
  }

  /**
   * The separator loop of `load`: a backslash skips the character after
   * it; the scan stops at a key-value separator, at the end, or one past
   * the end after a final backslash.
   */
  method FindSeparator(line: string, keyStart: nat) returns (separatorIndex: nat)
    requires keyStart <= |line|
    ensures separatorIndex == keyStart + SeparatorOffset(line[keyStart..])
  {
    ghost var target := keyStart + SeparatorOffset(line[keyStart..]);
    separatorIndex := keyStart;
    while separatorIndex < |line| && !IsKeyValueSeparator(line[separatorIndex])
      invariant keyStart <= separatorIndex <= |line| + 1
      invariant separatorIndex <= |line| ==> target == separatorIndex + SeparatorOffset(line[separatorIndex..])
      invariant separatorIndex == |line| + 1 ==> target == separatorIndex
      decreases |line| + 1 - separatorIndex
    {
      SeparatorOffsetAt(line, separatorIndex);
      if line[separatorIndex] == '\\' {
        separatorIndex := separatorIndex + 2;
      } else {
        separatorIndex := separatorIndex + 1;
      }
    }
    if separatorIndex <= |line| {
      assert SeparatorOffset(line[separatorIndex..]) == 0;
    }
  }

  /** The value scan of `load`: whitespace, at most one `=` or `:`, whitespace again. */
  method FindValue(line: string, separatorIndex: nat) returns (valueIndex: nat)
    requires separatorIndex <= |line|
    ensures valueIndex == separatorIndex + ValueOffset(line[separatorIndex..])
  {
    var r := line[separatorIndex..];
    valueIndex := SkipWhiteSpace(line, separatorIndex);
    ghost var a := valueIndex - separatorIndex;
    if valueIndex < |line| && IsStrictSeparator(line[valueIndex]) {
      assert r[a] == line[valueIndex];
      valueIndex := valueIndex + 1;
      assert r[a + 1..] == line[valueIndex..];
    } else {
      assert a < |r| ==> r[a] == line[valueIndex];
    }
    valueIndex := SkipWhiteSpace(line, valueIndex);
  }

  /** `theString` with `out` already converted in front of what is left. */
  function PrependAll(out: string, r: Result<string, LoadError>): Result<string, LoadError>
  {
    if r.Ok? then Ok(out + r.value) else r
  }

  lemma PrependAllStep(out: string, c: char, r: Result<string, LoadError>)
    ensures PrependAll(out, Prepend(c, r)) == PrependAll(out + [c], r)
  {
    if r.Ok? {
      assert out + ([c] + r.value) == out + [c] + r.value;
    }
  }

  /** One step of `loadConvert` at index `x`. */
  lemma UnescapeAt(s: string, x: nat)
    requires x < |s|
    ensures s[x] != '\\' ==> Unescape(s[x..]) == Prepend(s[x], Unescape(s[x + 1..]))
    ensures s[x] == '\\' && x + 1 == |s| ==> Unescape(s[x..]) == Err(IndexOutOfBounds)
    ensures s[x] == '\\' && x + 1 < |s| && s[x + 1] != 'u'
            ==> Unescape(s[x..]) == Prepend(EscapedChar(s[x + 1]), Unescape(s[x + 2..]))
    ensures s[x] == '\\' && x + 1 < |s| && s[x + 1] == 'u'
            ==> Unescape(s[x..]) == match HexRead(s[x + 2..], 4, 0)
                                    case Err(e) => Err(e)
                                    case Ok(v) => if IsSurrogate(v) then Err(SurrogateUnit)
                                                  else Prepend(v as char, Unescape(s[x + 6..]))
  {
    assert s[x..][1..] == s[x + 1..];
    if x + 1 < |s| {
      assert s[x..][2..] == s[x + 2..];
      if s[x] == '\\' && s[x + 1] == 'u' && HexRead(s[x + 2..], 4, 0).Ok? {
        assert s[x..][6..] == s[x + 6..];
      }
    }
  }

  /** One digit of the `\uXXXX` loop at index `x`. */
  lemma HexReadAt(s: string, x: nat, count: nat, acc: nat)
    requires x <= |s| && count > 0
    ensures x == |s| ==> HexRead(s[x..], count, acc) == Err(IndexOutOfBounds)
    ensures x < |s| && !IsHexDigit(s[x]) ==> HexRead(s[x..], count, acc) == Err(MalformedEscape)
    ensures x < |s| && IsHexDigit(s[x])
            ==> HexRead(s[x..], count, acc) == HexRead(s[x + 1..], count - 1, acc * 16 + HexDigitValue(s[x]))
  {
    if x < |s| {
      assert s[x..][1..] == s[x + 1..];
    }
  }

  /** The `switch` of the `\uXXXX` loop: the value of one hex digit, if it is one. */
  method HexDigit(c: char) returns (d: Option<nat>)
    ensures d.Some? <==> IsHexDigit(c)
    ensures d.Some? ==> d.value == HexDigitValue(c)
  {
    if '0' <= c <= '9' {
      d := Some(c as int - '0' as int);
    } else if 'a' <= c <= 'f' {
      d := Some(10 + c as int - 'a' as int);
    } else if 'A' <= c <= 'F' {
      d := Some(10 + c as int - 'A' as int);
    } else {
      d := None;
    }
  }

  /** The four-digit loop of `loadConvert`, from index `start`. */
  method ReadHex(s: string, start: nat) returns (r: Result<nat, LoadError>)
    requires start <= |s|
    ensures r == HexRead(s[start..], 4, 0)
  {
    ghost var goal := HexRead(s[start..], 4, 0);
    var value: nat := 0;
    var i := 0;
    while i < 4
      invariant 0 <= i <= 4 && start + i <= |s|
      invariant goal == HexRead(s[start + i..], 4 - i, value)
      decreases 4 - i
    {
      var stop, next := ReadHexDigit(s, start + i, 4 - i, value);
      if stop.Some? {
        return Err(stop.value);
      }
      value := next;
      i := i + 1;
    }
    r := Ok(value);
  }

  /** One turn of the four-digit loop: the end of the string, a non-digit, or the value so far. */
  method ReadHexDigit(s: string, x: nat, count: nat, acc: nat) returns (stop: Option<LoadError>, value: nat)
    requires x <= |s| && count > 0
    ensures stop.Some? ==> HexRead(s[x..], count, acc) == Err(stop.value)
    ensures stop.None? ==> x < |s| && HexRead(s[x..], count, acc) == HexRead(s[x + 1..], count - 1, value)
  {
    HexReadAt(s, x, count, acc);
    value := acc;
    if x == |s| {
      return Some(IndexOutOfBounds), value;
    }
    var d := HexDigit(s[x]);
    if d.None? {
      return Some(MalformedEscape), value;
    }
    value := acc * 16 + d.value;
    stop := None;
  }

  /** `loadConvert`, as a loop over the string that appends to a buffer. */
  method LoadConvert(s: string) returns (r: Result<string, LoadError>)
    ensures r == Unescape(s)
  {
    var out := "";
    var x := 0;
    assert s[x..] == s;
    assert Unescape(s).Ok? ==> out + Unescape(s).value == Unescape(s).value;
    while x < |s|
      invariant 0 <= x <= |s|
      invariant Unescape(s) == PrependAll(out, Unescape(s[x..]))
      decreases |s| - x
    {
      UnescapeAt(s, x);
      var c := s[x];
      if c != '\\' {
        PrependAllStep(out, c, Unescape(s[x + 1..]));
        out := out + [c];
        x := x + 1;
      } else if x + 1 == |s| {
        return Err(IndexOutOfBounds);
      } else if s[x + 1] == 'u' {
        var digits := ReadHex(s, x + 2);
        if digits.Err? {
          return Err(digits.error);
        }
        var v := digits.value;
        if IsSurrogate(v) {
          return Err(SurrogateUnit);
        }
        PrependAllStep(out, v as char, Unescape(s[x + 6..]));
        out := out + [v as char];
        x := x + 6;
      } else {
        var e := EscapedChar(s[x + 1]);
        PrependAllStep(out, e, Unescape(s[x + 2..]));
        out := out + [e];
        x := x + 2;
      }
    }
    assert s[x..] == [] && out + [] == out;
    r := Ok(out);
  }

  /** `ParseLine` once its key start and separator are known. */
  lemma ParseLineAt(line: string, keyStart: nat, separatorIndex: nat)
    requires keyStart == LeadingWhiteSpace(line) < |line|
    requires separatorIndex == keyStart + SeparatorOffset(line[keyStart..])
    ensures ParseLine(line) == SplitLine(line, keyStart, separatorIndex)
  {
  }

  /** `SplitLine` at a separator inside the line, once the value start is known as well. */
  lemma SplitLineAt(line: string, keyStart: nat, separatorIndex: nat, valueIndex: nat)
    requires keyStart <= separatorIndex < |line|
    requires valueIndex == separatorIndex + ValueOffset(line[separatorIndex..])
    ensures SplitLine(line, keyStart, separatorIndex)
            == ConvertEntry(Trim(line[keyStart..separatorIndex]), Trim(line[valueIndex..]))
  {
  }

  /** `SplitLine` without a separator: the value is empty. */
  lemma SplitLineAtEnd(line: string, keyStart: nat)
    requires keyStart <= |line|
    ensures SplitLine(line, keyStart, |line|) == ConvertEntry(Trim(line[keyStart..]), "")
  {
    assert line[keyStart..|line|] == line[keyStart..];
  }

  /**
   * The key and value of one logical line in `load`: the key start, the
   * separator and the value start found by their loops, the key and value
   * trimmed and converted, the key first.
   */
  method ParseKeyValue(line: string) returns (r: Result<Option<(string, string)>, LoadError>)
    ensures r == ParseLine(line)
  {
    var len := |line|;
    var keyStart := SkipWhiteSpace(line, 0);
    assert line[0..] == line;
    if keyStart == len {
      return Ok(None);
    }
    var separatorIndex := FindSeparator(line, keyStart);
    if separatorIndex > len {
      return Err(IndexOutOfBounds);
    }
    var valueIndex := FindValue(line, separatorIndex);
    var key := Trim(line[keyStart..separatorIndex]);
    var value := "";
    ParseLineAt(line, keyStart, separatorIndex);
    if separatorIndex < len {
      value := Trim(line[valueIndex..]);
      SplitLineAt(line, keyStart, separatorIndex, valueIndex);
    } else {
      assert line[keyStart..separatorIndex] == line[keyStart..];
      SplitLineAtEnd(line, keyStart);
    }
    assert ParseLine(line) == ConvertEntry(key, value);
    var k := LoadConvert(key);
    if k.Err? {
      return Err(k.error);
    }
    var v := LoadConvert(value);
    if v.Err? {
      return Err(v.error);
    }
    r := Ok(Some((k.value, v.value)));
  }

  /** The continuation loop, one step: what `JoinContinued` does with the next line. */
  lemma JoinContinuedStep(line: string, rest: seq<string>, lopped: string, nextLine: string, remaining: seq<string>, startIndex: nat)
    requires ContinuesLine(line) && lopped == line[..|line| - 1]
    requires nextLine == (if rest == [] then "" else rest[0])
    requires remaining == (if rest == [] then [] else rest[1..])
    requires startIndex == LeadingWhiteSpace(nextLine)
    ensures JoinContinued(line, rest) == JoinContinued(lopped + nextLine[startIndex..], remaining)
  {
  }

  /** A line that continues has at least its one backslash. */
  lemma ContinuedLineNotEmpty(line: string)
    requires ContinuesLine(line)
    ensures |line| > 0 && line[|line| - 1] == '\\'
  {
  }

  /**
   * The continuation loop of `load`, from line `line` with the lines from
   * `i` still unread: the logical line and the index of the next unread line.
   */
  method JoinLines(line: string, lines: seq<string>, i: nat) returns (joined: string, next: nat)
    requires i <= |lines|
    ensures i <= next <= |lines|
    ensures JoinContinued(line, lines[i..]) == (joined, lines[next..])
  {
    joined, next := line, i;
    ghost var target := JoinContinued(line, lines[i..]);
    var continues := ContinueLine(joined);
    while continues
      invariant i <= next <= |lines|
      invariant continues == ContinuesLine(joined)
      invariant target == JoinContinued(joined, lines[next..])
      decreases |lines| - next, |joined|
    {
      joined, next := JoinNextLine(joined, lines, next);
      continues := ContinueLine(joined);
    }
  }

  /** One turn of the continuation loop: drop the backslash and append the next line, unindented. */
  method JoinNextLine(joined: string, lines: seq<string>, next: nat) returns (joined': string, next': nat)
    requires next <= |lines| && ContinuesLine(joined)
    ensures next <= next' <= |lines|
    ensures next' == next ==> next == |lines| && |joined'| < |joined|
    ensures JoinContinued(joined, lines[next..]) == JoinContinued(joined', lines[next'..])
  {
    ghost var rest := lines[next..];
    var nextLine := "";
    next' := next;
    if next < |lines| {
      nextLine := lines[next];
      assert rest[0] == nextLine && rest[1..] == lines[next + 1..];
      next' := next + 1;
    }
    ContinuedLineNotEmpty(joined);
    var loppedLine := joined[..|joined| - 1];
    var startIndex := SkipWhiteSpace(nextLine, 0);
    assert nextLine[0..] == nextLine;
    JoinContinuedStep(joined, rest, loppedLine, nextLine, lines[next'..], startIndex);
    joined' := loppedLine + nextLine[startIndex..];
  }

  /** `load` at line `i`, which is neither empty nor a comment and joins into `joined`. */
  lemma LoadLinesAt(lines: seq<string>, i: nat, entries: map<string, string>, joined: string, next: nat)
    requires i < |lines| && |lines[i]| > 0 && !IsCommentLine(lines[i])
    requires i + 1 <= next <= |lines| && JoinContinued(lines[i], lines[i + 1..]) == (joined, lines[next..])
    ensures ParseLine(joined).Err?
            ==> LoadLines(lines[i..], entries) == LoadOutcome(entries, Some(ParseLine(joined).error))
    ensures ParseLine(joined) == Ok(None) ==> LoadLines(lines[i..], entries) == LoadLines(lines[next..], entries)
    ensures ParseLine(joined).Ok? && ParseLine(joined).value.Some?
            ==> var kv := ParseLine(joined).value.value;
                LoadLines(lines[i..], entries) == LoadLines(lines[next..], entries[kv.0 := kv.1])
  {
    assert lines[i..][0] == lines[i] && lines[i..][1..] == lines[i + 1..];
  }

  /** `load` at line `i`, which is empty or a comment. */
  lemma LoadLinesSkip(lines: seq<string>, i: nat, entries: map<string, string>)
    requires i < |lines| && (|lines[i]| == 0 || IsCommentLine(lines[i]))
    ensures LoadLines(lines[i..], entries) == LoadLines(lines[i + 1..], entries)
  {
    assert lines[i..][0] == lines[i] && lines[i..][1..] == lines[i + 1..];
  }

  /**
   * A `ConcurrentHashMap<String, String>` filled by `load`. Only what
   * `load` does to the map is modelled: the entries it holds.
   */
  class UTF8Map {
    var entries: map<string, string>

    /** The empty map. */
    constructor()
      ensures entries == map[]
    {
      entries := map[];
    }

    /**
     * `load`: clears the map, then reads the lines in order, joining
     * continuation lines and putting one entry per logical line. An
     * exception stops loading, with the entries put until then kept.
     */
    method Load(lines: seq<string>) returns (error: Option<LoadError>)
      modifies this
      ensures LoadOutcome(entries, error) == LoadLines(lines, map[])
    {
      entries := map[];
      var i := 0;
      ghost var outcome := LoadLines(lines, map[]);
      while i < |lines|
        invariant 0 <= i <= |lines|
        invariant outcome == LoadLines(lines[i..], entries)
        decreases |lines| - i
      {
        var line := lines[i];
        if |line| > 0 && line[0] != '#' && line[0] != '!' {
          var joined, next := JoinLines(line, lines, i + 1);
          LoadLinesAt(lines, i, entries, joined, next);
          var parsed := ParseKeyValue(joined);
          if parsed.Err? {
            return Some(parsed.error);
          }
          if parsed.value.Some? {
            entries := entries[parsed.value.value.0 := parsed.value.value.1];
          }
          i := next;
        } else {
          LoadLinesSkip(lines, i, entries);
          i := i + 1;
        }
      }
      assert lines[i..] == [];
      error := None;
    }
  }
}
