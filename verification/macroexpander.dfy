/**
 * `MacroExpander`: replaces `<start>{NAME}` and `<start>{NAME,PATTERN}`
 * occurrences in a string by the values of named macros. The start
 * character is `$` unless the creator chooses another one.
 */
module MacroExpander {
  import opened Jdk
  import StringUtils

  const DEFAULT_START_CHAR: char := '$'
  const PATTERN_SEPARATOR_CHAR: char := ','
  const DEFAULT_PATTERN_CALENDAR: string := "yyyy-MM-dd'T'HH:mm:ss.SSSZ"
  const DEFAULT_PATTERN_DATE: string := "yyyy-MM-dd"

  /**
   * A macro value as `format` tells them apart: `null`, a `String`, a
   * `Number` (with its `toString` text), a `Calendar` or a `Date` (with
   * their instant), and any other object (with its `toString` text).
   */
  datatype MacroValue =
    | NullValue
    | StringValue(s: string)
    | NumberValue(text: string)
    | CalendarValue(millis: int)
    | DateValue(millis: int)
    | OtherValue(text: string)

  /**
   * `SimpleDateFormat` / `DecimalFormat` applied with a pattern in the
   * expander's locale.
   */
  type PatternFormatter = (MacroValue, string) -> string

  datatype MacroError =
    | WhitespaceStartChar   // the constructor's IllegalArgumentException
    | IndexOutOfBounds      // StringIndexOutOfBoundsException from substring

  /** An expander: its start character and its macros (the locale lives in the formatter). */
  datatype Expander = Expander(startChar: char, macros: map<string, MacroValue>)

  /** The constructor: a whitespace start character is refused. */
  function NewExpander(startChar: char, macros: map<string, MacroValue>): (r: Result<Expander, MacroError>)
    ensures r.Err? <==> IsJavaWhitespace(startChar)
    ensures r.Err? ==> r.error == WhitespaceStartChar
    ensures r.Ok? ==> r.value.startChar == startChar && r.value.macros == macros
  {
    if IsJavaWhitespace(startChar) then Err(WhitespaceStartChar) else Ok(Expander(startChar, macros))
  }

  /** The one-argument constructor: the default start character, which is always accepted. */
  function DefaultExpander(macros: map<string, MacroValue>): (r: Expander)
    ensures NewExpander(DEFAULT_START_CHAR, macros) == Ok(r)
  {
    Expander(DEFAULT_START_CHAR, macros)
  }

  /** `s` holds no macro opening: no start character followed by `{`. */
  predicate NoMacroStart(e: Expander, s: string)
  {
    forall k :: 0 <= k < |s| ==> !PairAt(s, e.startChar, '{', k)
  }

  /** `val.indexOf(startChar + "{", from)`. */
  function FindOpening(e: Expander, val: string, from: nat): (i: int)
  {
    IndexOfPair(val, e.startChar, '{', from)
  }

  /** The macro name: the trimmed text before the first `,`, or all of it trimmed. */
  function MacroName(inside: string): (name: string)
  {
    var sep := IndexOfChar(inside, PATTERN_SEPARATOR_CHAR, 0);
    if sep == -1 then Trim(inside) else Trim(inside[..sep])
  }

  /** The macro pattern: the trimmed text after the first `,`, or none. */
  function MacroPattern(inside: string): (pattern: Option<string>)
  {
    var sep := IndexOfChar(inside, PATTERN_SEPARATOR_CHAR, 0);
    if sep == -1 then None else Some(Trim(inside[sep + 1..]))
  }

  /** The `toString` text of a value that `format` renders without a pattern. */
  function ToStringText(v: MacroValue): string
    requires v.StringValue? || v.NumberValue? || v.OtherValue?
  {
    match v
    case StringValue(s) => s
    case NumberValue(text) => text
    case OtherValue(text) => text
  }

  predicate IsFormatPatternSupported(v: MacroValue)
  {
    v.CalendarValue? || v.DateValue? || v.NumberValue?
  }

  /**
   * `format`: Calendars and Dates go through the pattern formatter (with a
   * default pattern when none or a blank one is given), Numbers too when a
   * non-blank pattern is given; everything else is its `toString` text.
   */
  function Format(v: MacroValue, pattern: Option<string>, formatter: PatternFormatter): (r: string)
    requires !v.NullValue?
    ensures !IsFormatPatternSupported(v) ==> r == ToStringText(v)
    ensures v.NumberValue? && StringUtils.IsBlank(pattern) ==> r == ToStringText(v)
    ensures v.NumberValue? && !StringUtils.IsBlank(pattern) ==> r == formatter(v, pattern.value)
    ensures v.CalendarValue? ==> r == formatter(v, if StringUtils.IsBlank(pattern) then DEFAULT_PATTERN_CALENDAR else pattern.value)
    ensures v.DateValue? ==> r == formatter(v, if StringUtils.IsBlank(pattern) then DEFAULT_PATTERN_DATE else pattern.value)
  {
    match v
    case CalendarValue(_) =>
      formatter(v, if StringUtils.IsBlank(pattern) then DEFAULT_PATTERN_CALENDAR else pattern.value)
    case DateValue(_) =>
      formatter(v, if StringUtils.IsBlank(pattern) then DEFAULT_PATTERN_DATE else pattern.value)
    case NumberValue(text) =>
      if StringUtils.IsBlank(pattern) then text else formatter(v, pattern.value)
    case StringValue(s) => s
    case OtherValue(text) => text
  }

  /** What a known macro turns into: nothing for a null value, the formatted value otherwise. */
  function Rendered(v: MacroValue, pattern: Option<string>, formatter: PatternFormatter): string
  {
    if v.NullValue? then "" else Format(v, pattern, formatter)
  }

  /** Where the scan goes on after one macro: the (possibly rewritten) text and the resume index. */
  datatype Resume = Resume(val: string, from: nat)

  /**
   * One macro, opened at `i` and closed at `j`: a known name is replaced
   * by its rendered value and the scan resumes after the inserted text; an
   * unknown name is kept and the scan resumes at its `}`. The text before
   * the macro is kept, and what is left to scan is shorter than before.
   */
  function Substitute(e: Expander, val: string, i: nat, j: nat, formatter: PatternFormatter): (r: Resume)
    requires i + 2 <= j < |val|
    ensures i <= r.from <= |r.val| && |r.val| - r.from < |val| - i
    ensures r.val[..i] == val[..i]
  {
    var inside := val[i + 2..j];
    var name := MacroName(inside);
    if name !in e.macros then Resume(val, j)
    else
      var s := Rendered(e.macros[name], MacroPattern(inside), formatter);
      var next := val[..i] + s + val[j + 1..];
      assert next[..i] == val[..i];
      Resume(next, i + |s|)
  }

  /**
   * `expandMacros(value, startIndex)`: finds the first macro opening at or
   * after `startIndex` and the first `}` after it, substitutes that macro
   * and goes on from where `Substitute` says. The only failure is a `}`
   * start character, for which `substring(i + 2, j)` has `j == i`.
   */
  function ExpandFrom(e: Expander, val: string, startIndex: nat, formatter: PatternFormatter): (r: Result<string, MacroError>)
    requires startIndex <= |val|
    ensures FindOpening(e, val, startIndex) == -1 ==> r == Ok(val)
    ensures r.Err? <==> e.startChar == '}' && FindOpening(e, val, startIndex) != -1
    ensures r.Err? ==> r.error == IndexOutOfBounds
    decreases |val| - startIndex
  {
    var i := FindOpening(e, val, startIndex);
    if i == -1 then Ok(val)
    else
      var j := IndexOfChar(val, '}', i);
      if j == -1 then Ok(val)
      else if j < i + 2 then Err(IndexOutOfBounds)
      else
        var next := Substitute(e, val, i, j, formatter);
        ExpandFrom(e, next.val, next.from, formatter)
  }

  /** One step of `ExpandFrom` once the opening and its `}` are known. */
  lemma ExpandFromStep(e: Expander, val: string, startIndex: nat, i: nat, j: nat, formatter: PatternFormatter)
    requires startIndex <= |val| && i == FindOpening(e, val, startIndex)
    requires j == IndexOfChar(val, '}', i) && i + 2 <= j
    ensures var next := Substitute(e, val, i, j, formatter);
            ExpandFrom(e, val, startIndex, formatter) == ExpandFrom(e, next.val, next.from, formatter)
  {
  }

  /** The text before the first opening at or after `startIndex` is never changed. */
  lemma {:induction false} ExpandKeepsPrefix(e: Expander, val: string, startIndex: nat, formatter: PatternFormatter)
    requires startIndex <= |val|
    ensures var r := ExpandFrom(e, val, startIndex, formatter);
            var i := FindOpening(e, val, startIndex);
            r.Ok? && i != -1 ==> i <= |r.value| && r.value[..i] == val[..i]
    decreases |val| - startIndex
  {
    var i := FindOpening(e, val, startIndex);
    if i != -1 {
      var j := IndexOfChar(val, '}', i);
      if j != -1 && j >= i + 2 {
        var next := Substitute(e, val, i, j, formatter);
        ExpandFromStep(e, val, startIndex, i, j, formatter);
        ExpandKeepsPrefix(e, next.val, next.from, formatter);
        var r := ExpandFrom(e, next.val, next.from, formatter);
        var i2 := FindOpening(e, next.val, next.from);
        if r.Ok? && i2 != -1 {
          ShorterPrefix(r.value, next.val, i, i2);
        }
      }
    }
  }

  /** Two texts that agree on their first `n` characters agree on fewer. */
  lemma ShorterPrefix(a: string, b: string, m: nat, n: nat)
    requires m <= n <= |a| && n <= |b| && a[..n] == b[..n]
    ensures a[..m] == b[..m]
  {
    assert a[..m] == a[..n][..m] && b[..m] == b[..n][..m];
  }

  /** Without a `}` at or after `startIndex` nothing is expanded. */
  lemma ExpandWithoutClosingBrace(e: Expander, val: string, startIndex: nat, formatter: PatternFormatter)
    requires startIndex <= |val| && IndexOfChar(val, '}', startIndex) == -1
    ensures ExpandFrom(e, val, startIndex, formatter) == Ok(val)
  {
  }

  /** `expandMacros(value)`: null stays null; otherwise the scan starts at index 0. */
  function ExpandMacros(e: Expander, value: Option<string>, formatter: PatternFormatter): (r: Result<Option<string>, MacroError>)
    ensures value.None? ==> r == Ok(None)
    ensures value.Some? && e.startChar != '}' ==> r.Ok? && r.value.Some?
    ensures value.Some? && FindOpening(e, value.value, 0) == -1 ==> r == Ok(value)
  {
    match value
    case None => Ok(None)
    case Some(v) =>
      match ExpandFrom(e, v, 0, formatter)
      case Ok(x) => Ok(Some(x))
      case Err(err) => Err(err)
  }

  // ---------------------------------------------------------------------
  // One macro between plain text
  // ---------------------------------------------------------------------

  /** `prefix`, the opening, `inside`, `}` and `suffix`. */
  function WithMacro(e: Expander, prefix: string, inside: string, suffix: string): string
  {
    prefix + [e.startChar, '{'] + inside + "}" + suffix
  }

  /** Plain text after the inserted text holds no opening, so the scan stops there. */
  lemma NoOpeningAfter(e: Expander, t: string, suffix: string)
    requires NoMacroStart(e, suffix)
    ensures FindOpening(e, t + suffix, |t|) == -1
  {
    var s := t + suffix;
    forall k | |t| <= k < |s| - 1
      ensures !PairAt(s, e.startChar, '{', k)
    {
      assert s[k] == suffix[k - |t|] && s[k + 1] == suffix[k - |t| + 1];
      assert !PairAt(suffix, e.startChar, '{', k - |t|);
    }
  }

  /** `s` is `prefix`, the opening, `inside`, `}` and `suffix`, position by position. */
  predicate Layout(e: Expander, s: string, prefix: string, inside: string, suffix: string)
  {
    var j := |prefix| + 2 + |inside|;
    && |s| == j + 1 + |suffix|
    && s[..|prefix| + 1] == prefix + [e.startChar]
    && s[|prefix| + 1] == '{'
    && s[|prefix| + 2..j] == inside
    && s[j] == '}'
    && s[..j + 1] + suffix == s
  }

  lemma WithMacroLayout(e: Expander, prefix: string, inside: string, suffix: string)
    ensures Layout(e, WithMacro(e, prefix, inside, suffix), prefix, inside, suffix)
  {
    var s := WithMacro(e, prefix, inside, suffix);
    var tail := [e.startChar, '{'] + inside + "}" + suffix;
    assert s == prefix + tail;
    assert s[|prefix|..] == tail;
    assert tail[2..2 + |inside|] == inside;
    assert s[..|prefix| + 1] == prefix + [e.startChar];
    assert s[..|prefix| + 3 + |inside|] == prefix + [e.startChar, '{'] + inside + "}";
  }

  /** An opening at `n` with none before it is the one the scan finds. */
  lemma FirstOpeningAt(e: Expander, s: string, n: nat)
    requires n + 1 < |s| && s[n] == e.startChar && s[n + 1] == '{'
    requires NoMacroStart(e, s[..n + 1])
    ensures FindOpening(e, s, 0) == n
  {
    assert PairAt(s, e.startChar, '{', n);
    var i := FindOpening(e, s, 0);
    if 0 <= i < n {
      assert PairAt(s[..n + 1], e.startChar, '{', i);
    }
  }

  /** The opening of the layout is the first one and its `}` the first after it. */
  lemma MacroPosition(e: Expander, s: string, prefix: string, inside: string, suffix: string)
    requires Layout(e, s, prefix, inside, suffix)
    requires NoMacroStart(e, prefix + [e.startChar]) && e.startChar != '}' && '}' !in inside
    ensures FindOpening(e, s, 0) == |prefix|
    ensures IndexOfChar(s, '}', |prefix|) == |prefix| + 2 + |inside|
  {
    var j := |prefix| + 2 + |inside|;
    assert s[|prefix|] == s[..|prefix| + 1][|prefix|];
    FirstOpeningAt(e, s, |prefix|);
    forall k | |prefix| <= k < j
      ensures s[k] != '}'
    {
      if k >= |prefix| + 2 {
        assert s[k] == s[|prefix| + 2..j][k - |prefix| - 2];
      }
    }
  }

  /** One pass over a laid-out known macro replaces it. */
  lemma ExpandLaidOutKnown(e: Expander, val: string, prefix: string, inside: string, suffix: string, formatter: PatternFormatter)
    requires Layout(e, val, prefix, inside, suffix)
    requires NoMacroStart(e, prefix + [e.startChar]) && NoMacroStart(e, suffix)
    requires e.startChar != '}' && '}' !in inside && MacroName(inside) in e.macros
    ensures ExpandFrom(e, val, 0, formatter)
            == Ok(prefix + Rendered(e.macros[MacroName(inside)], MacroPattern(inside), formatter) + suffix)
  {
    MacroPosition(e, val, prefix, inside, suffix);
    var i := |prefix|;
    var j := |prefix| + 2 + |inside|;
    assert val[..i] == val[..i + 1][..i] == prefix;
    assert val[j + 1..] == suffix by {
      assert val == val[..j + 1] + suffix;
    }
    assert val[i + 2..j] == inside;
    var s := Rendered(e.macros[MacroName(inside)], MacroPattern(inside), formatter);
    var r := Substitute(e, val, i, j, formatter);
    assert r.val == val[..i] + s + val[j + 1..] == prefix + s + suffix;
    assert r.from == i + |s|;
    NoOpeningAfter(e, prefix + s, suffix);
    ExpandFromStep(e, val, 0, i, j, formatter);
  }

  /** One pass over a laid-out unknown macro keeps it. */
  lemma ExpandLaidOutUnknown(e: Expander, val: string, prefix: string, inside: string, suffix: string, formatter: PatternFormatter)
    requires Layout(e, val, prefix, inside, suffix)
    requires NoMacroStart(e, prefix + [e.startChar]) && NoMacroStart(e, suffix)
    requires e.startChar != '}' && '}' !in inside && MacroName(inside) !in e.macros
    ensures ExpandFrom(e, val, 0, formatter) == Ok(val)
  {
    MacroPosition(e, val, prefix, inside, suffix);
    var i := |prefix|;
    var j := |prefix| + 2 + |inside|;
    assert val[i + 2..j] == inside;
    var r := Substitute(e, val, i, j, formatter);
    assert r.val == val && r.from == j;
    ExpandFromStep(e, val, 0, i, j, formatter);
    NoOpeningAfter(e, val[..j + 1], suffix);
    assert !PairAt(val, e.startChar, '{', j);
  }

  /**
   * A known macro between plain text is replaced by its rendered value
   * (nothing for a null value), the text around it is kept, and the
   * inserted text is not expanded again.
   */
  lemma ExpandKnownMacro(e: Expander, prefix: string, inside: string, suffix: string, formatter: PatternFormatter)
    requires NoMacroStart(e, prefix + [e.startChar]) && NoMacroStart(e, suffix)
    requires e.startChar != '}' && '}' !in inside && MacroName(inside) in e.macros
    ensures ExpandMacros(e, Some(WithMacro(e, prefix, inside, suffix)), formatter)
            == Ok(Some(prefix + Rendered(e.macros[MacroName(inside)], MacroPattern(inside), formatter) + suffix))
  {
    WithMacroLayout(e, prefix, inside, suffix);
    ExpandLaidOutKnown(e, WithMacro(e, prefix, inside, suffix), prefix, inside, suffix, formatter);
  }

  /** An unknown macro between plain text is kept verbatim, with the text around it. */
  lemma ExpandUnknownMacro(e: Expander, prefix: string, inside: string, suffix: string, formatter: PatternFormatter)
    requires NoMacroStart(e, prefix + [e.startChar]) && NoMacroStart(e, suffix)
    requires e.startChar != '}' && '}' !in inside && MacroName(inside) !in e.macros
    ensures ExpandMacros(e, Some(WithMacro(e, prefix, inside, suffix)), formatter)
            == Ok(Some(WithMacro(e, prefix, inside, suffix)))
  {
    WithMacroLayout(e, prefix, inside, suffix);
    ExpandLaidOutUnknown(e, WithMacro(e, prefix, inside, suffix), prefix, inside, suffix, formatter);
  }

  /**
   * A macro whose rendered value is its own invocation expands once: the
   * scan resumes after the inserted text, which is not rescanned.
   */
  lemma InsertedTextNotRescanned(e: Expander, inside: string, formatter: PatternFormatter)
    requires e.startChar != '}' && '}' !in inside && MacroName(inside) in e.macros
    requires Rendered(e.macros[MacroName(inside)], MacroPattern(inside), formatter) == WithMacro(e, "", inside, "")
    ensures ExpandMacros(e, Some(WithMacro(e, "", inside, "")), formatter) == Ok(Some(WithMacro(e, "", inside, "")))
  {
    var t := WithMacro(e, "", inside, "");
    assert NoMacroStart(e, "" + [e.startChar]) by {
      assert |"" + [e.startChar]| == 1;
    }
    ExpandKnownMacro(e, "", inside, "", formatter);
    EmptyAround(t);
  }

  lemma EmptyAround(t: string)
    ensures "" + t + "" == t
  {
  }
}
