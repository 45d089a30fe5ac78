/**
 * `DatabaseScriptExecutor`: reads SQL scripts line by line, drops comment
 * lines, picks a statement delimiter, splits the script into statements
 * (honouring `'...'` literals, `\` escapes, line comments and
 * `-- [statement]` / `-- [/statement]` blocks), and runs the statements on a
 * connection under the `continueOnError` / `ignoreFailedDrops` policy.
 */
module DatabaseScriptExecutor {
  import opened Jdk
  import StringUtils

  const DEFAULT_COMMENT_PREFIX: string := "--"
  const DEFAULT_STATEMENT_SEPARATOR: string := ";"
  const STATEMENT_SEPARATOR_START: string := "[statement]"
  const STATEMENT_SEPARATOR_END: string := "[/statement]"

  /** The comment line that opens a block in which the delimiter does not split. */
  function StartMarker(commentPrefix: string): string { commentPrefix + " " + STATEMENT_SEPARATOR_START }

  /** The comment line that closes such a block. */
  function EndMarker(commentPrefix: string): string { commentPrefix + " " + STATEMENT_SEPARATOR_END }

  // =====================================================================
  // readScript
  // =====================================================================

  /** A line `readScript` keeps: non-blank, and either not a comment or a block marker. */
  predicate KeptLine(line: string, commentPrefix: string)
  {
    StringUtils.IsNotBlank(Some(line))
    && (!StartsAt(line, commentPrefix, 0)
        || StartsAt(line, StartMarker(commentPrefix), 0)
        || StartsAt(line, EndMarker(commentPrefix), 0))
  }

  function KeptLines(lines: seq<string>, commentPrefix: string): (r: seq<string>)
    ensures |r| <= |lines|
  {
    if |lines| == 0 then []
    else
      var rest := KeptLines(lines[..|lines| - 1], commentPrefix);
      if KeptLine(lines[|lines| - 1], commentPrefix) then rest + [lines[|lines| - 1]] else rest
  }

  /** The kept lines joined by single newlines. */
  function JoinLines(lines: seq<string>): string
  {
    if |lines| == 0 then ""
    else if |lines| == 1 then lines[0]
    else JoinLines(lines[..|lines| - 1]) + "\n" + lines[|lines| - 1]
  }

  /** A script assembled from the kept lines splits back into exactly those lines, in order. */
  lemma {:induction false} JoinLinesSplitsBack(lines: seq<string>)
    requires |lines| > 0
    requires forall k :: 0 <= k < |lines| ==> NoneIn(lines[k], {'\n'})
    ensures Pieces(JoinLines(lines), {'\n'}) == lines
  {
    if |lines| == 1 {
      PiecesOfNoSeparator(lines[0], {'\n'});
    } else {
      var init := lines[..|lines| - 1];
      var last := lines[|lines| - 1];
      JoinLinesSplitsBack(init);
      PiecesOfNoSeparator(last, {'\n'});
      PiecesAppend(JoinLines(init), last, {'\n'}, '\n');
      assert init + [last] == lines;
    }
  }

  /** Cutting `a + [c] + b`, with `c` a separator and `b` free of separators, adds `b` as the last piece. */
  lemma {:induction false} PiecesAppend(a: string, b: string, seps: set<char>, c: char)
    requires c in seps && NoneIn(b, seps)
    ensures Pieces(a + [c] + b, seps) == Pieces(a, seps) + [b]
    decreases |a|
  {
    if |a| == 0 {
      PiecesOfSeparated("", c, b, seps);
      PiecesOfNoSeparator(b, seps);
      assert a + [c] + b == "" + [c] + b;
    } else {
      var s := a + [c] + b;
      assert s[1..] == a[1..] + [c] + b;
      PiecesAppend(a[1..], b, seps, c);
      if a[0] !in seps {
        assert Pieces(a, seps) == [[a[0]] + Pieces(a[1..], seps)[0]] + Pieces(a[1..], seps)[1..];
      }
    }
  }

  /**
   * `maybeAddSeparatorToScript`: when the configured separator ends in
   * whitespace, the whitespace tail is appended if `lastIndexOf` of the
   * trimmed separator equals `length - trimmed.length`.
   */
  function MaybeAddSeparator(script: string, separator: Option<string>): (r: string)
    ensures r == script || (separator.Some? && r == script + separator.value[|Trim(separator.value)|..])
  {
    if separator.None? then script
    else
      var trimmed := Trim(separator.value);
      if |trimmed| == |separator.value| then script
      else if LastIndexOf(script, trimmed) == |script| - |trimmed| then script + separator.value[|trimmed|..]
      else script
  }

  /**
   * The `lastIndexOf` test of `maybeAddSeparatorToScript` holds exactly when
   * the script ends with the trimmed separator, or when the trimmed separator
   * is one character longer than the script (both sides are then -1).
   */
  lemma SeparatorTailCondition(script: string, trimmed: string)
    ensures LastIndexOf(script, trimmed) == |script| - |trimmed|
            <==> StartsAt(script, trimmed, |script| - |trimmed|) || |trimmed| == |script| + 1
  {
  }

  // =====================================================================
  // containsSqlScriptDelimiters
  // =====================================================================

  function QuoteCount(s: string): (n: nat)
    ensures n <= |s|
  {
    if |s| == 0 then 0 else QuoteCount(s[..|s| - 1]) + (if s[|s| - 1] == '\'' then 1 else 0)
  }

  /** `delim` starts at some index where the quotes up to and including that index are balanced. */
  predicate HasUnquotedDelimiter(script: string, delim: string)
  {
    exists i :: 0 <= i < |script| && QuoteCount(script[..i + 1]) % 2 == 0 && StartsAt(script, delim, i)
  }

  /** `containsSqlScriptDelimiters`: scans once, toggling the literal flag at every `'`. */
  method ContainsSqlScriptDelimiters(script: string, delim: string) returns (r: bool)
    ensures r <==> HasUnquotedDelimiter(script, delim)
  {
    var inLiteral := false;
    var i := 0;
    while i < |script|
      invariant 0 <= i <= |script|
      invariant inLiteral <==> QuoteCount(script[..i]) % 2 == 1
      invariant forall k :: 0 <= k < i ==> !(QuoteCount(script[..k + 1]) % 2 == 0 && StartsAt(script, delim, k))
    {
      assert script[..i + 1][..i] == script[..i];
      if script[i] == '\'' {
        inLiteral := !inLiteral;
      }
      if !inLiteral && StartsAt(script, delim, i) {
        return true;
      }
      i := i + 1;
    }
    return false;
  }

  /**
   * The delimiter `executeScript` uses: the configured separator, else `;`
   * when it occurs outside quotes, else a newline.
   */
  function Delimiter(separator: Option<string>, script: string): (d: string)
    ensures separator.None? ==> (d == ";" <==> HasUnquotedDelimiter(script, ";"))
    ensures separator.None? ==> d == ";" || d == "\n"
    ensures separator.Some? ==> d == separator.value
  {
    if separator.Some? then separator.value
    else if HasUnquotedDelimiter(script, DEFAULT_STATEMENT_SEPARATOR) then DEFAULT_STATEMENT_SEPARATOR
    else "\n"
  }

  // =====================================================================
  // splitSqlScript
  // =====================================================================

  /** The state of the splitting loop before character `i`. */
  datatype Scan = Scan(i: nat, sb: string, inLiteral: bool, inEscape: bool, inStatementEscape: bool, statements: seq<string>)

  const Start: Scan := Scan(0, "", false, false, false, [])

  /** The whitespace the splitter collapses outside literals. */
  predicate Collapsible(c: char) { c == ' ' || c == '\n' || c == '\t' }

  /** One pass of the loop body, from character `s.i` to the next index the loop visits. */
  function Step(script: string, delim: string, commentPrefix: string, s: Scan): (t: Scan)
    requires s.i < |script|
    ensures s.i <= t.i <= |script|
    ensures |delim| > 0 ==> s.i < t.i
  {
    var c := script[s.i];
    if s.inEscape then
      s.(i := s.i + 1, inEscape := false, sb := s.sb + [c])
    else if c == '\\' then
      s.(i := s.i + 1, inEscape := true, sb := s.sb + [c])
    else
      var inLiteral := if c == '\'' then !s.inLiteral else s.inLiteral;
      if inLiteral then
        s.(i := s.i + 1, inLiteral := true, sb := s.sb + [c])
      else if StartsAt(script, delim, s.i) && !s.inStatementEscape then
        // end of a statement: emit it if non-empty, skip the delimiter
        s.(i := s.i + |delim|, inLiteral := false, sb := "",
           statements := if |s.sb| > 0 then s.statements + [s.sb] else s.statements)
      else if StartsAt(script, commentPrefix, s.i) then
        var blockOpens := StartsAt(script, StartMarker(commentPrefix), s.i);
        var blockCloses := StartsAt(script, EndMarker(commentPrefix), s.i);
        var escaped := if blockCloses then false else if blockOpens then true else s.inStatementEscape;
        var sb := if blockCloses then "" else s.sb;
        var statements := if blockCloses && |s.sb| > 0 then s.statements + [s.sb] else s.statements;
        var nl := IndexOf(script, "\n", s.i);
        // the comment runs to the end of the line; without a newline the scan stops
        Scan(if nl > s.i then nl + 1 else |script|, sb, false, false, escaped, statements)
      else if Collapsible(c) then
        if |s.sb| > 0 && s.sb[|s.sb| - 1] != ' ' then s.(i := s.i + 1, inLiteral := false, sb := s.sb + [' '])
        else s.(i := s.i + 1, inLiteral := false)
      else
        s.(i := s.i + 1, inLiteral := false, sb := s.sb + [c])
  }

  /**
   * With an empty delimiter the loop makes no progress: an unquoted character
   * outside a block that is neither a quote nor a backslash matches the empty
   * delimiter, the index moves by `delim.length() - 1 + 1 == 0`, and the next
   * pass finds the same state again.
   */
  lemma EmptyDelimiterSpins(script: string, commentPrefix: string, s: Scan)
    requires s.i < |script| && !s.inEscape && !s.inLiteral && !s.inStatementEscape
    requires script[s.i] != '\\' && script[s.i] != '\''
    ensures var t := Step(script, "", commentPrefix, s);
            t.i == s.i && t.sb == "" && Step(script, "", commentPrefix, t) == t
  {
  }

  /** After the loop: the remainder is a statement only if it is not blank. */
  function Finish(s: Scan): (r: seq<string>)
    ensures r == s.statements || (r == s.statements + [s.sb] && StringUtils.IsNotBlank(Some(s.sb)))
  {
    if StringUtils.IsNotBlank(Some(s.sb)) then s.statements + [s.sb] else s.statements
  }

  function ScanFrom(script: string, delim: string, commentPrefix: string, s: Scan): seq<string>
    requires |delim| > 0 && s.i <= |script|
    decreases |script| - s.i
  {
    if s.i == |script| then Finish(s) else ScanFrom(script, delim, commentPrefix, Step(script, delim, commentPrefix, s))
  }

  /** The statements `splitSqlScript` adds to its list. */
  function SplitStatements(script: string, delim: string, commentPrefix: string): seq<string>
    requires |delim| > 0
  {
    ScanFrom(script, delim, commentPrefix, Start)
  }

  /** `splitSqlScript`, walking the characters as the source does. */
  method SplitSqlScript(script: string, delim: string, commentPrefix: string) returns (statements: seq<string>)
    requires |delim| > 0
    ensures statements == SplitStatements(script, delim, commentPrefix)
    ensures forall k :: 0 <= k < |statements| ==> WellFormedStatement(statements[k])
  {
    var startMarker := StartMarker(commentPrefix);
    var endMarker := EndMarker(commentPrefix);
    var sb := "";
    var inLiteral, inEscape, inStatementEscape := false, false, false;
    statements := [];
    var i := 0;
    while i < |script|
      invariant 0 <= i <= |script|
      invariant ScanFrom(script, delim, commentPrefix, Scan(i, sb, inLiteral, inEscape, inStatementEscape, statements))
                == SplitStatements(script, delim, commentPrefix)
    {
      ghost var before := Scan(i, sb, inLiteral, inEscape, inStatementEscape, statements);
      var c := script[i];
      if inEscape {
        inEscape := false;
        sb := sb + [c];
        i := i + 1;
      } else if c == '\\' {
        inEscape := true;
        sb := sb + [c];
        i := i + 1;
      } else {
        if c == '\'' {
          inLiteral := !inLiteral;
        }
        if inLiteral {
          sb := sb + [c];
          i := i + 1;
        } else if StartsAt(script, delim, i) && !inStatementEscape {
          if |sb| > 0 {
            statements := statements + [sb];
            sb := "";
          }
          i := i + |delim|;
        } else if StartsAt(script, commentPrefix, i) {
          if StartsAt(script, startMarker, i) {
            inStatementEscape := true;
          }
          if StartsAt(script, endMarker, i) {
            inStatementEscape := false;
            if |sb| > 0 {
              statements := statements + [sb];
              sb := "";
            }
          }
          var indexOfNextNewline := IndexOf(script, "\n", i);
          if indexOfNextNewline > i {
            i := indexOfNextNewline + 1;
          } else {
            i := |script|;  // no newline after the comment: the scan stops
          }
        } else if Collapsible(c) {
          if |sb| > 0 && sb[|sb| - 1] != ' ' {
            sb := sb + [' '];
          }
          i := i + 1;
        } else {
          sb := sb + [c];
          i := i + 1;
        }
      }
      assert Scan(i, sb, inLiteral, inEscape, inStatementEscape, statements) == Step(script, delim, commentPrefix, before);
    }
    if StringUtils.IsNotBlank(Some(sb)) {
      statements := statements + [sb];
    }
    ScanWellFormed(script, delim, commentPrefix, Start);
  }

  // ---------------------------------------------------------------------
  // What every statement looks like
  // ---------------------------------------------------------------------

  /** Non-empty, and not starting with a space, tab or newline. */
  predicate WellFormedStatement(t: string) { |t| > 0 && !Collapsible(t[0]) }

  predicate WellFormedScan(s: Scan)
  {
    (s.inLiteral ==> |s.sb| > 0)
    && (s.inEscape ==> |s.sb| > 0)
    && (|s.sb| > 0 ==> !Collapsible(s.sb[0]))
    && forall k :: 0 <= k < |s.statements| ==> WellFormedStatement(s.statements[k])
  }

  lemma StepWellFormed(script: string, delim: string, commentPrefix: string, s: Scan)
    requires |delim| > 0 && s.i < |script| && WellFormedScan(s)
    ensures WellFormedScan(Step(script, delim, commentPrefix, s))
  {
  }

  /** `splitSqlScript` never emits an empty statement, nor one starting with collapsible whitespace. */
  lemma {:induction false} ScanWellFormed(script: string, delim: string, commentPrefix: string, s: Scan)
    requires |delim| > 0 && s.i <= |script| && WellFormedScan(s)
    ensures var r := ScanFrom(script, delim, commentPrefix, s);
            forall k :: 0 <= k < |r| ==> WellFormedStatement(r[k])
    decreases |script| - s.i
  {
    if s.i < |script| {
      StepWellFormed(script, delim, commentPrefix, s);
      assert ScanFrom(script, delim, commentPrefix, s) == ScanFrom(script, delim, commentPrefix, Step(script, delim, commentPrefix, s));
      ScanWellFormed(script, delim, commentPrefix, Step(script, delim, commentPrefix, s));
    }
  }

  // ---------------------------------------------------------------------
  // Whitespace collapsing (scripts without quotes or escapes)
  // ---------------------------------------------------------------------

  predicate Plain(script: string)
  {
    forall k :: 0 <= k < |script| ==> script[k] != '\'' && script[k] != '\\'
  }

  /** No tab, no newline, no two adjacent spaces. */
  predicate Collapsed(t: string)
  {
    (forall k :: 0 <= k < |t| ==> t[k] != '\n' && t[k] != '\t')
    && forall k :: 0 <= k < |t| - 1 ==> !(t[k] == ' ' && t[k + 1] == ' ')
  }

  predicate CollapsedScan(s: Scan)
  {
    !s.inLiteral && !s.inEscape && Collapsed(s.sb)
    && forall k :: 0 <= k < |s.statements| ==> Collapsed(s.statements[k])
  }

  lemma StepCollapsed(script: string, delim: string, commentPrefix: string, s: Scan)
    requires |delim| > 0 && s.i < |script| && Plain(script) && CollapsedScan(s)
    ensures CollapsedScan(Step(script, delim, commentPrefix, s))
  {
    var c := script[s.i];
    assert c != '\'' && c != '\\';
  }

  /** Without quotes or escapes, every run of spaces, tabs and newlines becomes at most one space. */
  lemma {:induction false} ScanCollapsed(script: string, delim: string, commentPrefix: string, s: Scan)
    requires |delim| > 0 && s.i <= |script| && Plain(script) && CollapsedScan(s)
    ensures var r := ScanFrom(script, delim, commentPrefix, s);
            forall k :: 0 <= k < |r| ==> Collapsed(r[k])
    decreases |script| - s.i
  {
    if s.i < |script| {
      StepCollapsed(script, delim, commentPrefix, s);
      assert ScanFrom(script, delim, commentPrefix, s) == ScanFrom(script, delim, commentPrefix, Step(script, delim, commentPrefix, s));
      ScanCollapsed(script, delim, commentPrefix, Step(script, delim, commentPrefix, s));
    }
  }

  lemma SplitCollapsesWhitespace(script: string, delim: string, commentPrefix: string)
    requires |delim| > 0 && Plain(script)
    ensures var r := SplitStatements(script, delim, commentPrefix);
            forall k :: 0 <= k < |r| ==> Collapsed(r[k])
  {
    assert CollapsedScan(Start);
    ScanCollapsed(script, delim, commentPrefix, Start);
    assert SplitStatements(script, delim, commentPrefix) == ScanFrom(script, delim, commentPrefix, Start);
  }

  // ---------------------------------------------------------------------
  // The delimiter is never copied outside literals and blocks
  // ---------------------------------------------------------------------

  predicate NoMarker(script: string, commentPrefix: string)
  {
    forall k :: 0 <= k < |script| ==> !StartsAt(script, StartMarker(commentPrefix), k)
  }

  predicate Lacks(t: string, d: char) { forall k :: 0 <= k < |t| ==> t[k] != d }

  predicate DelimiterFreeScan(s: Scan, d: char)
  {
    !s.inLiteral && !s.inEscape && !s.inStatementEscape && Lacks(s.sb, d)
    && forall k :: 0 <= k < |s.statements| ==> Lacks(s.statements[k], d)
  }

  lemma StepDelimiterFree(script: string, d: char, commentPrefix: string, s: Scan)
    requires s.i < |script| && Plain(script) && NoMarker(script, commentPrefix) && d != ' '
    requires DelimiterFreeScan(s, d)
    ensures DelimiterFreeScan(Step(script, [d], commentPrefix, s), d)
  {
    var c := script[s.i];
    assert c != '\'' && c != '\\';
    assert StartsAt(script, [d], s.i) <==> c == d;
    assert !StartsAt(script, StartMarker(commentPrefix), s.i);
  }

  lemma {:induction false} ScanDelimiterFree(script: string, d: char, commentPrefix: string, s: Scan)
    requires s.i <= |script| && Plain(script) && NoMarker(script, commentPrefix) && d != ' '
    requires DelimiterFreeScan(s, d)
    ensures var r := ScanFrom(script, [d], commentPrefix, s);
            forall k :: 0 <= k < |r| ==> Lacks(r[k], d)
    decreases |script| - s.i
  {
    if s.i < |script| {
      StepDelimiterFree(script, d, commentPrefix, s);
      assert ScanFrom(script, [d], commentPrefix, s) == ScanFrom(script, [d], commentPrefix, Step(script, [d], commentPrefix, s));
      ScanDelimiterFree(script, d, commentPrefix, Step(script, [d], commentPrefix, s));
    }
  }

  /**
   * Without quotes, escapes or `[statement]` blocks, a one-character
   * delimiter (other than a space) only ends statements and is never copied.
   */
  lemma SplitDropsDelimiter(script: string, d: char, commentPrefix: string)
    requires Plain(script) && NoMarker(script, commentPrefix) && d != ' '
    ensures var r := SplitStatements(script, [d], commentPrefix);
            forall k :: 0 <= k < |r| ==> Lacks(r[k], d)
  {
    assert DelimiterFreeScan(Start, d);
    ScanDelimiterFree(script, d, commentPrefix, Start);
    assert SplitStatements(script, [d], commentPrefix) == ScanFrom(script, [d], commentPrefix, Start);
  }

  // ---------------------------------------------------------------------
  // Single steps: escapes, literals, delimiters, comments and blocks
  // ---------------------------------------------------------------------

  /** A `\` and the character after it are both copied, and that character has no other effect. */
  lemma EscapedCharacterVerbatim(script: string, delim: string, commentPrefix: string, s: Scan)
    requires |delim| > 0 && s.i + 1 < |script| && !s.inEscape && script[s.i] == '\\'
    ensures var t := Step(script, delim, commentPrefix, Step(script, delim, commentPrefix, s));
            t == s.(i := s.i + 2, sb := s.sb + ['\\', script[s.i + 1]])
  {
  }

  /** Inside a literal every character other than `'` and `\` is copied, the delimiter included. */
  lemma LiteralCopiedVerbatim(script: string, delim: string, commentPrefix: string, s: Scan)
    requires |delim| > 0 && s.i < |script| && !s.inEscape && s.inLiteral
    requires script[s.i] != '\'' && script[s.i] != '\\'
    ensures Step(script, delim, commentPrefix, s) == s.(i := s.i + 1, sb := s.sb + [script[s.i]])
  {
  }

  /** Outside literals and blocks the delimiter ends the statement, which is emitted if non-empty, and is skipped. */
  lemma DelimiterEndsStatement(script: string, delim: string, commentPrefix: string, s: Scan)
    requires |delim| > 0 && s.i < |script| && !s.inEscape && !s.inLiteral && !s.inStatementEscape
    requires script[s.i] != '\'' && script[s.i] != '\\' && StartsAt(script, delim, s.i)
    ensures var t := Step(script, delim, commentPrefix, s);
            t.i == s.i + |delim| && t.sb == "" && !t.inLiteral
            && t.statements == (if |s.sb| > 0 then s.statements + [s.sb] else s.statements)
  {
  }

  /** Inside a `[statement]` block the delimiter is copied like any other character. */
  lemma DelimiterInBlockCopied(script: string, delim: string, commentPrefix: string, s: Scan)
    requires |delim| > 0 && s.i < |script| && !s.inEscape && !s.inLiteral && s.inStatementEscape
    requires script[s.i] != '\'' && script[s.i] != '\\' && !Collapsible(script[s.i])
    requires !StartsAt(script, commentPrefix, s.i)
    ensures Step(script, delim, commentPrefix, s) == s.(i := s.i + 1, sb := s.sb + [script[s.i]])
  {
  }

  /** An ordinary comment is dropped up to and including the end of its line; the statement so far is kept. */
  lemma CommentSkippedToEndOfLine(script: string, delim: string, commentPrefix: string, s: Scan)
    requires |delim| > 0 && s.i < |script| && !s.inEscape && !s.inLiteral
    requires script[s.i] != '\'' && script[s.i] != '\\'
    requires !(StartsAt(script, delim, s.i) && !s.inStatementEscape) && StartsAt(script, commentPrefix, s.i)
    requires !StartsAt(script, StartMarker(commentPrefix), s.i) && !StartsAt(script, EndMarker(commentPrefix), s.i)
    requires IndexOf(script, "\n", s.i) > s.i
    ensures Step(script, delim, commentPrefix, s) == s.(i := IndexOf(script, "\n", s.i) + 1)
  {
  }

  /** A comment with no newline after it ends the scan: only the remainder can still be emitted. */
  lemma CommentWithoutNewlineEndsScan(script: string, delim: string, commentPrefix: string, s: Scan)
    requires |delim| > 0 && s.i < |script| && !s.inEscape && !s.inLiteral
    requires script[s.i] != '\'' && script[s.i] != '\\'
    requires !(StartsAt(script, delim, s.i) && !s.inStatementEscape) && StartsAt(script, commentPrefix, s.i)
    requires !StartsAt(script, EndMarker(commentPrefix), s.i)
    requires forall k :: s.i <= k < |script| ==> script[k] != '\n'
    ensures ScanFrom(script, delim, commentPrefix, s) == Finish(s)
  {
  }

  /** A line cannot open and close a block at once. */
  lemma MarkersDiffer(script: string, commentPrefix: string, i: nat)
    ensures !(StartsAt(script, StartMarker(commentPrefix), i) && StartsAt(script, EndMarker(commentPrefix), i))
  {
    var n := |commentPrefix| + 2;
    if StartsAt(script, StartMarker(commentPrefix), i) {
      assert script[i + n] == StartMarker(commentPrefix)[n] == 's';
      assert EndMarker(commentPrefix)[n] == '/';
    }
  }

  /** `-- [statement]` switches delimiter splitting off; `-- [/statement]` switches it on and emits the block. */
  lemma BlockMarkers(script: string, delim: string, commentPrefix: string, s: Scan)
    requires |delim| > 0 && s.i < |script| && !s.inEscape && !s.inLiteral
    requires script[s.i] != '\'' && script[s.i] != '\\'
    requires !(StartsAt(script, delim, s.i) && !s.inStatementEscape)
    ensures StartsAt(script, StartMarker(commentPrefix), s.i) ==> Step(script, delim, commentPrefix, s).inStatementEscape
    ensures StartsAt(script, EndMarker(commentPrefix), s.i) ==>
              var t := Step(script, delim, commentPrefix, s);
              !t.inStatementEscape && t.sb == ""
              && t.statements == (if |s.sb| > 0 then s.statements + [s.sb] else s.statements)
  {
    if StartsAt(script, StartMarker(commentPrefix), s.i) || StartsAt(script, EndMarker(commentPrefix), s.i) {
      assert StartsAt(script, commentPrefix, s.i) by {
        var m := if StartsAt(script, StartMarker(commentPrefix), s.i) then StartMarker(commentPrefix) else EndMarker(commentPrefix);
        assert m[..|commentPrefix|] == commentPrefix;
        assert script[s.i..s.i + |commentPrefix|] == script[s.i..s.i + |m|][..|commentPrefix|];
      }
    }
    MarkersDiffer(script, commentPrefix, s.i);
  }

  // =====================================================================
  // executeScript
  // =====================================================================

  /** `statStr.trim().toUpperCase().startsWith("drop")`, exactly as the source writes it. */
  predicate IsDropStatementAsWritten(statement: string)
  {
    StartsAt(ToUpper(Trim(statement)), "drop", 0)
  }

  /** An upper-cased string never starts with lower-case `drop`: the test written in the source never holds. */
  lemma DropTestAsWrittenNeverHolds(statement: string)
    ensures !IsDropStatementAsWritten(statement)
  {
    var u := ToUpper(Trim(statement));
    if |u| >= 4 {
      assert u[0] == UpperAscii(Trim(statement)[0]);
      assert u[0] != 'd';
    }
  }

  /** The tolerance test of `executeScript` with the drop test as written. */
  predicate ToleratedAsWritten(statement: string, continueOnError: bool, ignoreFailedDrops: bool)
  {
    continueOnError || (IsDropStatementAsWritten(statement) && ignoreFailedDrops)
  }

  /**
   * With `ignoreFailedDrops` set and `continueOnError` clear, a failing
   * `DROP TABLE T` stops the script as written, while the intended test
   * tolerates it.
   */
  lemma FailedDropNotIgnoredAsWritten(statement: string)
    requires |statement| >= 4 && statement[..4] == "DROP" && !IsTrimmed(statement[|statement| - 1])
    ensures !ToleratedAsWritten(statement, false, true)
    ensures Tolerated(statement, false, true)
  {
    DropTestAsWrittenNeverHolds(statement);
    TrimKeepsUntrimmedEnds(statement);
    UpperKeepsDrop(statement);
  }

  lemma TrimKeepsUntrimmedEnds(s: string)
    requires |s| > 0 && !IsTrimmed(s[0]) && !IsTrimmed(s[|s| - 1])
    ensures Trim(s) == s
  {
    assert Leading(s) == 0;
    assert Trailing(s) == 0;
  }

  lemma UpperKeepsDrop(s: string)
    requires |s| >= 4 && s[..4] == "DROP"
    ensures StartsAt(ToUpper(s), "DROP", 0)
  {
    var u := ToUpper(s);
    forall k | 0 <= k < 4
      ensures u[k] == "DROP"[k]
    {
      assert s[k] == "DROP"[k];
    }
  }

  /** The intended test: the trimmed statement starts with `drop` in any letter case. */
  predicate IsDropStatement(statement: string)
  {
    StartsAt(ToUpper(Trim(statement)), "DROP", 0)
  }

  /** `IsDropStatement` accepts each of the four letters in either case, and nothing else. */
  lemma DropStatementIgnoresCase(statement: string)
    ensures IsDropStatement(statement) <==>
              var t := Trim(statement);
              |t| >= 4 && forall k :: 0 <= k < 4 ==> t[k] == "drop"[k] || t[k] == "DROP"[k]
  {
    var t := Trim(statement);
    var u := ToUpper(t);
    if |t| >= 4 {
      assert u[..4] == [u[0], u[1], u[2], u[3]];
      forall k | 0 <= k < 4
        ensures u[k] == "DROP"[k] <==> t[k] == "drop"[k] || t[k] == "DROP"[k]
      {
        assert u[k] == UpperAscii(t[k]);
      }
    }
  }

  /** A failed statement is only logged when errors are tolerated, or when it is a drop and failed drops are ignored. */
  predicate Tolerated(statement: string, continueOnError: bool, ignoreFailedDrops: bool)
  {
    continueOnError || (IsDropStatement(statement) && ignoreFailedDrops)
  }

  /** The statements `executeScript` sends for a script read as `lines`. */
  function ScriptStatements(lines: seq<string>, separator: Option<string>, commentPrefix: string): seq<string>
    requires separator.None? || |separator.value| > 0
  {
    var script := MaybeAddSeparator(JoinLines(KeptLines(lines, commentPrefix)), separator);
    SplitStatements(script, Delimiter(separator, script), commentPrefix)
  }

  /**
   * `r` is the index of the first statement that the database rejects and
   * that is not tolerated, when the statements are sent after `history`.
   */
  ghost predicate IsFirstFatal(accepts: (seq<string>, string) -> bool, history: seq<string>, statements: seq<string>,
                               tolerated: string -> bool, r: Option<nat>)
  {
    && (r.Some? ==> r.value < |statements|
                    && !accepts(history + statements[..r.value], statements[r.value])
                    && !tolerated(statements[r.value]))
    && (forall k :: 0 <= k < |statements| && (r.None? || k < r.value) ==>
          accepts(history + statements[..k], statements[k]) || tolerated(statements[k]))
  }

  /** The index of the first statement that fails and is not tolerated, if any. */
  function FirstFatal(accepts: (seq<string>, string) -> bool, history: seq<string>, statements: seq<string>,
                      tolerated: string -> bool): (r: Option<nat>)
    ensures IsFirstFatal(accepts, history, statements, tolerated, r)
    decreases |statements|
  {
    if |statements| == 0 then None
    else if !accepts(history, statements[0]) && !tolerated(statements[0]) then
      assert history + statements[..0] == history;
      Some(0)
    else
      var rest := FirstFatal(accepts, history + [statements[0]], statements[1..], tolerated);
      FirstFatalStep(accepts, history, statements, tolerated, rest);
      if rest.None? then None else Some(rest.value + 1)
  }

  /** A statement that passes shifts the first fatal index of the remaining ones by one. */
  lemma FirstFatalStep(accepts: (seq<string>, string) -> bool, history: seq<string>, statements: seq<string>,
                       tolerated: string -> bool, rest: Option<nat>)
    requires |statements| > 0
    requires accepts(history, statements[0]) || tolerated(statements[0])
    requires IsFirstFatal(accepts, history + [statements[0]], statements[1..], tolerated, rest)
    ensures IsFirstFatal(accepts, history, statements, tolerated, if rest.None? then None else Some(rest.value + 1))
  {
    ShiftedHistory(history, statements);
    assert history + statements[..0] == history;
  }

  /** Sending the first statement and then `k` more is sending `k + 1` statements. */
  lemma ShiftedHistory(history: seq<string>, statements: seq<string>)
    requires |statements| > 0
    ensures forall k :: 0 <= k < |statements| - 1 ==>
              history + [statements[0]] + statements[1..][..k] == history + statements[..k + 1]
              && statements[1..][k] == statements[k + 1]
  {
    forall k | 0 <= k < |statements| - 1
      ensures history + [statements[0]] + statements[1..][..k] == history + statements[..k + 1]
    {
      assert statements[..k + 1] == [statements[0]] + statements[1..][..k];
    }
  }

  /**
   * Statement `n`, reached before the first fatal one, is that one exactly
   * when it fails and is not tolerated.
   */
  lemma FatalAt(accepts: (seq<string>, string) -> bool, history: seq<string>, statements: seq<string>,
                tolerated: string -> bool, n: nat)
    requires n < |statements|
    requires var r := FirstFatal(accepts, history, statements, tolerated); r.None? || n <= r.value
    ensures var r := FirstFatal(accepts, history, statements, tolerated);
            if !accepts(history + statements[..n], statements[n]) && !tolerated(statements[n]) then r == Some(n)
            else r.None? || n < r.value
  {
  }

  /** The tolerance test `executeScript` applies, with its drop test as written. */
  function AsWrittenTolerance(continueOnError: bool, ignoreFailedDrops: bool): string -> bool
  {
    statement => ToleratedAsWritten(statement, continueOnError, ignoreFailedDrops)
  }

  /** The tolerance test with the intended drop test. */
  function IntendedTolerance(continueOnError: bool, ignoreFailedDrops: bool): string -> bool
  {
    statement => Tolerated(statement, continueOnError, ignoreFailedDrops)
  }

  /**
   * As written, `ignoreFailedDrops` has no effect on a run: the first fatal
   * statement is the same whichever way the flag is set.
   */
  lemma {:induction false} IgnoreFailedDropsHasNoEffect(accepts: (seq<string>, string) -> bool, history: seq<string>,
                                                        statements: seq<string>, continueOnError: bool)
    ensures FirstFatal(accepts, history, statements, AsWrittenTolerance(continueOnError, true))
            == FirstFatal(accepts, history, statements, AsWrittenTolerance(continueOnError, false))
    decreases |statements|
  {
    if |statements| > 0 {
      DropTestAsWrittenNeverHolds(statements[0]);
      IgnoreFailedDropsHasNoEffect(accepts, history + [statements[0]], statements[1..], continueOnError);
    }
  }

  /**
   * A rejected `DROP ...` statement stops the script as written, with
   * `ignoreFailedDrops` set and `continueOnError` clear; the intended test
   * passes over it.
   */
  lemma FailedDropStopsScript(accepts: (seq<string>, string) -> bool, history: seq<string>, statement: string)
    requires |statement| >= 4 && statement[..4] == "DROP" && !IsTrimmed(statement[|statement| - 1])
    requires !accepts(history, statement)
    ensures FirstFatal(accepts, history, [statement], AsWrittenTolerance(false, true)) == Some(0)
    ensures FirstFatal(accepts, history, [statement], IntendedTolerance(false, true)) == None
  {
    FailedDropNotIgnoredAsWritten(statement);
    assert [statement][1..] == [];
  }

  /** No statement is fatal exactly when every statement is accepted or tolerated. */
  lemma FirstFatalNone(accepts: (seq<string>, string) -> bool, history: seq<string>, statements: seq<string>,
                       tolerated: string -> bool)
    ensures FirstFatal(accepts, history, statements, tolerated).None? <==>
              forall k :: 0 <= k < |statements| ==>
                accepts(history + statements[..k], statements[k]) || tolerated(statements[k])
  {
    var r := FirstFatal(accepts, history, statements, tolerated);
    if r.Some? {
      var k := r.value;
      assert !(accepts(history + statements[..k], statements[k]) || tolerated(statements[k]));
    }
  }

  /**
   * Statements sent in two runs, the second after the first: nothing is
   * fatal in the whole exactly when nothing is fatal in either run.
   */
  lemma {:induction false} FirstFatalAppend(accepts: (seq<string>, string) -> bool, history: seq<string>,
                                            s1: seq<string>, s2: seq<string>, tolerated: string -> bool)
    ensures FirstFatal(accepts, history, s1 + s2, tolerated).None? <==>
              FirstFatal(accepts, history, s1, tolerated).None? && FirstFatal(accepts, history + s1, s2, tolerated).None?
    decreases |s1|
  {
    if |s1| == 0 {
      assert s1 + s2 == s2 && history + s1 == history;
    } else {
      assert (s1 + s2)[0] == s1[0] && (s1 + s2)[1..] == s1[1..] + s2;
      assert history + [s1[0]] + s1[1..] == history + s1;
      FirstFatalAppend(accepts, history + [s1[0]], s1[1..], s2, tolerated);
    }
  }

  /** Why `executeScript` fails: the script cannot be read, or statement `number` (1-based) fails. */
  datatype ScriptError = ReadFailed(url: string) | StatementFailed(url: string, number: nat, statement: string)

  /** The message of the `SQLException` the source throws. */
  function Message(e: ScriptError): (m: string)
    ensures e.ReadFailed? ==> m == "Error reading SQL script: " + e.url
    ensures e.StatementFailed? ==>
              m == "Failed to execute SQL statement #" + IntToString(e.number) + " of SQL script " + e.url + ": " + e.statement
  {
    match e
    case ReadFailed(url) => "Error reading SQL script: " + url
    case StatementFailed(url, n, statement) =>
      "Failed to execute SQL statement #" + IntToString(n) + " of SQL script " + url + ": " + statement
  }

  /**
   * The two messages are told apart by their first word, and each names the
   * script's URL at a fixed place.
   */
  lemma MessageNamesScript(e: ScriptError)
    ensures Message(e)[0] == (if e.ReadFailed? then 'E' else 'F')
    ensures var k := if e.ReadFailed? then |"Error reading SQL script: "|
                     else |"Failed to execute SQL statement #" + IntToString(e.number) + " of SQL script "|;
            k + |e.url| <= |Message(e)| && Message(e)[k..k + |e.url|] == e.url
  {
    var head := if e.ReadFailed? then "Error reading SQL script: "
                else "Failed to execute SQL statement #" + IntToString(e.number) + " of SQL script ";
    var tail := if e.ReadFailed? then "" else ": " + e.statement;
    assert Message(e) == head + e.url + tail;
    SliceOfConcat(head, e.url, tail);
  }

  /** The middle part of a three-part concatenation sits right after the first part. */
  lemma SliceOfConcat(a: string, b: string, c: string)
    ensures (a + b + c)[|a|..|a| + |b|] == b
    ensures |a| > 0 ==> (a + b + c)[0] == a[0]
  {
  }

  /**
   * The JDBC connection as the executor uses it: the statements sent to it,
   * in order, and the commits issued. Whether the database accepts a
   * statement is decided by `accepts` from the statements sent before it.
   */
  class Connection {
    var sent: seq<string>
    var commits: nat
    const accepts: (seq<string>, string) -> bool

    constructor (accepts: (seq<string>, string) -> bool)
      ensures sent == [] && commits == 0 && this.accepts == accepts
    {
      this.accepts := accepts;
      sent := [];
      commits := 0;
    }

    method Execute(statement: string) returns (ok: bool)
      modifies this`sent
      ensures sent == old(sent) + [statement]
      ensures ok == accepts(old(sent), statement)
    {
      ok := accepts(sent, statement);
      sent := sent + [statement];
    }

    method Commit()
      modifies this`commits
      ensures commits == old(commits) + 1
    {
      commits := commits + 1;
    }
  }

  /** The statements of all scripts, in order, or None when one of them cannot be read. */
  function AllStatements(urls: seq<string>, read: string -> Option<seq<string>>, separator: Option<string>, commentPrefix: string)
    : (r: Option<seq<string>>)
    requires separator.None? || |separator.value| > 0
    ensures r.Some? <==> forall k :: 0 <= k < |urls| ==> read(urls[k]).Some?
  {
    if |urls| == 0 then Some([])
    else
      var init := AllStatements(urls[..|urls| - 1], read, separator, commentPrefix);
      var last := read(urls[|urls| - 1]);
      assert forall k :: 0 <= k < |urls| - 1 ==> urls[..|urls| - 1][k] == urls[k];
      if init.None? || last.None? then None
      else Some(init.value + ScriptStatements(last.value, separator, commentPrefix))
  }

  /** What a run of scripts did: its result, the statements it sent and the number of scripts it read. */
  datatype ScriptsRun = ScriptsRun(result: Result<(), ScriptError>, sent: seq<string>, scriptsRead: nat)

  /**
   * `executeScript` of one script on a connection that has already been sent
   * `history`: a script that cannot be read fails and sends nothing; otherwise
   * its statements are sent up to and including the first fatal one.
   */
  function RunScript(url: string, read: string -> Option<seq<string>>, accepts: (seq<string>, string) -> bool,
                     history: seq<string>, separator: Option<string>, commentPrefix: string, tolerated: string -> bool)
    : (run: ScriptsRun)
    requires separator.None? || |separator.value| > 0
    ensures run.result.Err? ==> run.result.error.url == url
    ensures run.scriptsRead == 1 <==> read(url).Some?
    ensures run.scriptsRead <= 1
  {
    match read(url)
    case None => ScriptsRun(Err(ReadFailed(url)), [], 0)
    case Some(lines) =>
      var statements := ScriptStatements(lines, separator, commentPrefix);
      match FirstFatal(accepts, history, statements, tolerated)
      case None => ScriptsRun(Ok(()), statements, 1)
      case Some(n) => ScriptsRun(Err(StatementFailed(url, n + 1, statements[n])), statements[..n + 1], 1)
  }

  /** The run of a script that can be read: its statements up to the first fatal one. */
  lemma RunReadScript(url: string, read: string -> Option<seq<string>>, accepts: (seq<string>, string) -> bool,
                      history: seq<string>, separator: Option<string>, commentPrefix: string, tolerated: string -> bool)
    requires separator.None? || |separator.value| > 0
    requires read(url).Some?
    ensures var statements := ScriptStatements(read(url).value, separator, commentPrefix);
            var fatal := FirstFatal(accepts, history, statements, tolerated);
            var run := RunScript(url, read, accepts, history, separator, commentPrefix, tolerated);
            run.scriptsRead == 1
            && (fatal.None? ==> run.result == Ok(()) && run.sent == statements)
            && (fatal.Some? ==> fatal.value < |statements|
                                && run.result == Err(StatementFailed(url, fatal.value + 1, statements[fatal.value]))
                                && run.sent == statements[..fatal.value + 1])
  {
    var statements := ScriptStatements(read(url).value, separator, commentPrefix);
    var fatal := FirstFatal(accepts, history, statements, tolerated);
    assert fatal.Some? ==> fatal.value < |statements|;
  }

  /**
   * `executeScripts` on a connection that has already been sent `history`:
   * the scripts run in order, each after the statements of those before it,
   * until one fails; that script ends the run with its error.
   */
  function RunScripts(urls: seq<string>, read: string -> Option<seq<string>>, accepts: (seq<string>, string) -> bool,
                      history: seq<string>, separator: Option<string>, commentPrefix: string, tolerated: string -> bool)
    : (run: ScriptsRun)
    requires separator.None? || |separator.value| > 0
    ensures run.scriptsRead <= |urls|
    ensures run.result.Ok? ==> run.scriptsRead == |urls|
    decreases |urls|
  {
    if |urls| == 0 then ScriptsRun(Ok(()), [], 0)
    else
      var before := RunScripts(urls[..|urls| - 1], read, accepts, history, separator, commentPrefix, tolerated);
      if before.result.Err? then before
      else
        var last := RunScript(urls[|urls| - 1], read, accepts, history + before.sent, separator, commentPrefix, tolerated);
        ScriptsRun(last.result, before.sent + last.sent, before.scriptsRead + last.scriptsRead)
  }

  /** Script `k` fails the run of `urls`: the scripts before it succeed, and the run ends with its error. */
  ghost predicate FailsAt(urls: seq<string>, k: nat, read: string -> Option<seq<string>>,
                          accepts: (seq<string>, string) -> bool, history: seq<string>,
                          separator: Option<string>, commentPrefix: string, tolerated: string -> bool)
    requires separator.None? || |separator.value| > 0
    requires k < |urls|
  {
    var run := RunScripts(urls, read, accepts, history, separator, commentPrefix, tolerated);
    && RunScripts(urls[..k], read, accepts, history, separator, commentPrefix, tolerated).result.Ok?
    && RunScripts(urls[..k + 1], read, accepts, history, separator, commentPrefix, tolerated) == run
    && run.result.Err? && run.result.error.url == urls[k]
  }

  /** The run of one more script, after a prefix that succeeded. */
  lemma RunScriptsSnoc(urls: seq<string>, i: nat, read: string -> Option<seq<string>>,
                       accepts: (seq<string>, string) -> bool, history: seq<string>,
                       separator: Option<string>, commentPrefix: string, tolerated: string -> bool)
    requires separator.None? || |separator.value| > 0
    requires i < |urls| && RunScripts(urls[..i], read, accepts, history, separator, commentPrefix, tolerated).result.Ok?
    ensures var before := RunScripts(urls[..i], read, accepts, history, separator, commentPrefix, tolerated);
            var last := RunScript(urls[i], read, accepts, history + before.sent, separator, commentPrefix, tolerated);
            RunScripts(urls[..i + 1], read, accepts, history, separator, commentPrefix, tolerated)
            == ScriptsRun(last.result, before.sent + last.sent, before.scriptsRead + last.scriptsRead)
  {
    assert urls[..i + 1][..i] == urls[..i];
  }

  /**
   * After `i` scripts succeeded with `done` sent, script `i` either extends
   * the successful prefix or ends the whole run with its failure.
   */
  lemma NextScriptRun(urls: seq<string>, i: nat, read: string -> Option<seq<string>>,
                      accepts: (seq<string>, string) -> bool, history: seq<string>, done: seq<string>,
                      separator: Option<string>, commentPrefix: string, tolerated: string -> bool)
    requires separator.None? || |separator.value| > 0
    requires i < |urls|
    requires RunScripts(urls[..i], read, accepts, history, separator, commentPrefix, tolerated) == ScriptsRun(Ok(()), done, i)
    ensures var one := RunScript(urls[i], read, accepts, history + done, separator, commentPrefix, tolerated);
            one.result.Ok? ==>
              RunScripts(urls[..i + 1], read, accepts, history, separator, commentPrefix, tolerated)
              == ScriptsRun(Ok(()), done + one.sent, i + 1)
    ensures var one := RunScript(urls[i], read, accepts, history + done, separator, commentPrefix, tolerated);
            one.result.Err? ==>
              RunScripts(urls, read, accepts, history, separator, commentPrefix, tolerated)
              == ScriptsRun(one.result, done + one.sent, i + one.scriptsRead)
  {
    RunScriptsSnoc(urls, i, read, accepts, history, separator, commentPrefix, tolerated);
    var one := RunScript(urls[i], read, accepts, history + done, separator, commentPrefix, tolerated);
    if one.result.Err? {
      RunErrorPersists(urls, i + 1, read, accepts, history, separator, commentPrefix, tolerated);
    } else {
      assert one.result == Ok(()) && one.scriptsRead == 1;
    }
  }

  /** Once a prefix of the scripts has failed, the run of all of them is that failed run. */
  lemma {:induction false} RunErrorPersists(urls: seq<string>, n: nat, read: string -> Option<seq<string>>,
                                            accepts: (seq<string>, string) -> bool, history: seq<string>,
                                            separator: Option<string>, commentPrefix: string, tolerated: string -> bool)
    requires separator.None? || |separator.value| > 0
    requires n <= |urls|
    requires RunScripts(urls[..n], read, accepts, history, separator, commentPrefix, tolerated).result.Err?
    ensures RunScripts(urls, read, accepts, history, separator, commentPrefix, tolerated)
            == RunScripts(urls[..n], read, accepts, history, separator, commentPrefix, tolerated)
    decreases |urls| - n
  {
    if n < |urls| {
      assert urls[..n + 1][..n] == urls[..n];
      RunErrorPersists(urls, n + 1, read, accepts, history, separator, commentPrefix, tolerated);
    } else {
      assert urls[..n] == urls;
    }
  }

  /**
   * A run succeeds exactly when every script can be read and no statement
   * of all of them, sent one after the other, is fatal; it then has sent
   * every statement of every script and read every script.
   */
  lemma {:induction false} RunScriptsSucceeds(urls: seq<string>, read: string -> Option<seq<string>>,
                                              accepts: (seq<string>, string) -> bool, history: seq<string>,
                                              separator: Option<string>, commentPrefix: string, tolerated: string -> bool)
    requires separator.None? || |separator.value| > 0
    ensures var run := RunScripts(urls, read, accepts, history, separator, commentPrefix, tolerated);
            var all := AllStatements(urls, read, separator, commentPrefix);
            run.result.Ok? <==> all.Some? && FirstFatal(accepts, history, all.value, tolerated).None?
    ensures var run := RunScripts(urls, read, accepts, history, separator, commentPrefix, tolerated);
            var all := AllStatements(urls, read, separator, commentPrefix);
            run.result.Ok? ==> run.sent == all.value && run.scriptsRead == |urls|
    decreases |urls|
  {
    if |urls| > 0 {
      var init := urls[..|urls| - 1];
      var url := urls[|urls| - 1];
      RunScriptsSucceeds(init, read, accepts, history, separator, commentPrefix, tolerated);
      var before := RunScripts(init, read, accepts, history, separator, commentPrefix, tolerated);
      var allBefore := AllStatements(init, read, separator, commentPrefix);
      if allBefore.Some? && read(url).Some? {
        var statements := ScriptStatements(read(url).value, separator, commentPrefix);
        assert AllStatements(urls, read, separator, commentPrefix) == Some(allBefore.value + statements);
        FirstFatalAppend(accepts, history, allBefore.value, statements, tolerated);
      }
    }
  }

  /**
   * A failed run fails on one script: every script before it ran to the end,
   * and the run's error is the one that script gives.
   */
  lemma RunScriptsFails(urls: seq<string>, read: string -> Option<seq<string>>,
                        accepts: (seq<string>, string) -> bool, history: seq<string>,
                        separator: Option<string>, commentPrefix: string, tolerated: string -> bool)
    requires separator.None? || |separator.value| > 0
    requires RunScripts(urls, read, accepts, history, separator, commentPrefix, tolerated).result.Err?
    ensures exists k :: 0 <= k < |urls| && FailsAt(urls, k, read, accepts, history, separator, commentPrefix, tolerated)
  {
    var k := FailingScript(urls, read, accepts, history, separator, commentPrefix, tolerated);
  }

  /** The index of the script a failed run fails on. */
  lemma {:induction false} FailingScript(urls: seq<string>, read: string -> Option<seq<string>>,
                                         accepts: (seq<string>, string) -> bool, history: seq<string>,
                                         separator: Option<string>, commentPrefix: string, tolerated: string -> bool)
    returns (k: nat)
    requires separator.None? || |separator.value| > 0
    requires RunScripts(urls, read, accepts, history, separator, commentPrefix, tolerated).result.Err?
    ensures k < |urls| && FailsAt(urls, k, read, accepts, history, separator, commentPrefix, tolerated)
    decreases |urls|
  {
    var init := urls[..|urls| - 1];
    if RunScripts(init, read, accepts, history, separator, commentPrefix, tolerated).result.Err? {
      k := FailingScript(init, read, accepts, history, separator, commentPrefix, tolerated);
      FailsAtExtends(urls, k, read, accepts, history, separator, commentPrefix, tolerated);
    } else {
      k := |urls| - 1;
      assert urls[..k + 1] == urls;
    }
  }

  /** A failure of the first scripts is the failure of the whole run. */
  lemma FailsAtExtends(urls: seq<string>, k: nat, read: string -> Option<seq<string>>,
                       accepts: (seq<string>, string) -> bool, history: seq<string>,
                       separator: Option<string>, commentPrefix: string, tolerated: string -> bool)
    requires separator.None? || |separator.value| > 0
    requires 0 < |urls| && k < |urls| - 1
    requires RunScripts(urls[..|urls| - 1], read, accepts, history, separator, commentPrefix, tolerated).result.Err?
    requires FailsAt(urls[..|urls| - 1], k, read, accepts, history, separator, commentPrefix, tolerated)
    ensures FailsAt(urls, k, read, accepts, history, separator, commentPrefix, tolerated)
  {
    var init := urls[..|urls| - 1];
    assert init[..k] == urls[..k] && init[..k + 1] == urls[..k + 1] && init[k] == urls[k];
  }

  /** The configuration of a script run and the scripts to run. */
  class ScriptExecutor {
    var scriptUrls: seq<string>
    var sqlScriptEncoding: string
    var separator: Option<string>
    var commentPrefix: string
    var continueOnError: bool
    var ignoreFailedDrops: bool
    var commitAfterScript: bool

    constructor ()
      ensures scriptUrls == [] && sqlScriptEncoding == "UTF-8" && separator.None?
      ensures commentPrefix == DEFAULT_COMMENT_PREFIX
      ensures !continueOnError && !ignoreFailedDrops && !commitAfterScript
    {
      scriptUrls := [];
      sqlScriptEncoding := "UTF-8";
      separator := None;
      commentPrefix := DEFAULT_COMMENT_PREFIX;
      continueOnError := false;
      ignoreFailedDrops := false;
      commitAfterScript := false;
    }

    method AddScriptUrl(scriptUrl: string)
      modifies this`scriptUrls
      ensures scriptUrls == old(scriptUrls) + [scriptUrl]
    {
      scriptUrls := scriptUrls + [scriptUrl];
    }

    method AddScriptUrls(urls: seq<string>)
      modifies this`scriptUrls
      ensures scriptUrls == old(scriptUrls) + urls
    {
      scriptUrls := scriptUrls + urls;
    }

    method SetSqlScriptEncoding(encoding: string)
      modifies this`sqlScriptEncoding
      ensures sqlScriptEncoding == encoding
    {
      sqlScriptEncoding := encoding;
    }

    method SetSeparator(separator: Option<string>)
      modifies this`separator
      ensures this.separator == separator
    {
      this.separator := separator;
    }

    method SetCommentPrefix(prefix: string)
      modifies this`commentPrefix
      ensures commentPrefix == prefix
    {
      commentPrefix := prefix;
    }

    method SetContinueOnError(flag: bool)
      modifies this`continueOnError
      ensures continueOnError == flag
    {
      continueOnError := flag;
    }

    method SetIgnoreFailedDrops(flag: bool)
      modifies this`ignoreFailedDrops
      ensures ignoreFailedDrops == flag
    {
      ignoreFailedDrops := flag;
    }

    method SetCommitAfterScript(flag: bool)
      modifies this`commitAfterScript
      ensures commitAfterScript == flag
    {
      commitAfterScript := flag;
    }

    /**
     * `readScript`: keeps the non-blank lines that are not comments, and the
     * block markers, joined by newlines; then `maybeAddSeparatorToScript`.
     */
    method ReadScript(lines: seq<string>) returns (script: string)
      ensures script == MaybeAddSeparator(JoinLines(KeptLines(lines, commentPrefix)), separator)
    {
      var scriptBuilder := ReadLines(lines, commentPrefix);
      script := MaybeAddSeparator(scriptBuilder, separator);
    }

    /**
     * `executeScript`: reads the script, picks the delimiter, splits it and
     * sends the statements in order; a failure that is not tolerated stops
     * the script with the 1-based statement number. After a successful read
     * a commit is issued in every case when `commitAfterScript` is set.
     */
    method ExecuteScript(conn: Connection, scriptUrl: string, read: string -> Option<seq<string>>)
      returns (r: Result<(), ScriptError>)
      requires separator.None? || |separator.value| > 0
      modifies conn
      ensures var run := RunScript(scriptUrl, read, conn.accepts, old(conn.sent), separator, commentPrefix,
                                   AsWrittenTolerance(continueOnError, ignoreFailedDrops));
              r == run.result && conn.sent == old(conn.sent) + run.sent
              && conn.commits == old(conn.commits) + (if commitAfterScript then run.scriptsRead else 0)
    {
      var lines := read(scriptUrl);
      if lines.None? {
        return Err(ReadFailed(scriptUrl));
      }
      var statements := SplitScript(lines.value);
      RunReadScript(scriptUrl, read, conn.accepts, conn.sent, separator, commentPrefix,
                    AsWrittenTolerance(continueOnError, ignoreFailedDrops));
      r := RunStatements(conn, scriptUrl, statements);
      if commitAfterScript {
        conn.Commit();
      }
    }

    /** The first part of `executeScript`: read the script, pick the delimiter, split. */
    method SplitScript(lines: seq<string>) returns (statements: seq<string>)
      requires separator.None? || |separator.value| > 0
      ensures statements == ScriptStatements(lines, separator, commentPrefix)
    {
      var script := ReadScript(lines);
      var delimiter: string;
      if separator.Some? {
        delimiter := separator.value;
      } else {
        delimiter := DEFAULT_STATEMENT_SEPARATOR;
        var found := ContainsSqlScriptDelimiters(script, delimiter);
        if !found {
          delimiter := "\n";
        }
      }
      statements := SplitSqlScript(script, delimiter, commentPrefix);
    }

    /**
     * One statement of the loop of `executeScript`: send it, and on an
     * `SQLException` decide, with the drop test as written, whether the
     * failure stops the script.
     */
    method RunStatement(conn: Connection, statStr: string) returns (fatal: bool)
      modifies conn`sent
      ensures conn.sent == old(conn.sent) + [statStr]
      ensures fatal <==> !conn.accepts(old(conn.sent), statStr)
                         && !AsWrittenTolerance(continueOnError, ignoreFailedDrops)(statStr)
    {
      var ok := conn.Execute(statStr);
      fatal := false;
      if !ok {
        var dropStatement := IsDropStatementAsWritten(statStr);
        fatal := !(continueOnError || (dropStatement && ignoreFailedDrops));
      }
    }

    /** The statement loop of `executeScript`. */
    method RunStatements(conn: Connection, scriptUrl: string, statements: seq<string>) returns (r: Result<(), ScriptError>)
      modifies conn`sent
      ensures var fatal := FirstFatal(conn.accepts, old(conn.sent), statements, AsWrittenTolerance(continueOnError, ignoreFailedDrops));
              (fatal.None? ==> r == Ok(()) && conn.sent == old(conn.sent) + statements)
              && (fatal.Some? ==>
                    r == Err(StatementFailed(scriptUrl, fatal.value + 1, statements[fatal.value]))
                    && conn.sent == old(conn.sent) + statements[..fatal.value + 1])
    {
      ghost var history := conn.sent;
      ghost var tolerated := AsWrittenTolerance(continueOnError, ignoreFailedDrops);
      ghost var fatal := FirstFatal(conn.accepts, history, statements, tolerated);
      var statNumber := 0;
      while statNumber < |statements|
        invariant 0 <= statNumber <= |statements|
        invariant conn.sent == history + statements[..statNumber]
        invariant fatal.None? || statNumber <= fatal.value
      {
        var statStr := statements[statNumber];
        FatalAt(conn.accepts, history, statements, tolerated, statNumber);
        var failed := RunStatement(conn, statStr);
        assert statements[..statNumber + 1] == statements[..statNumber] + [statStr];
        if failed {
          return Err(StatementFailed(scriptUrl, statNumber + 1, statStr));
        }
        statNumber := statNumber + 1;
      }
      assert statements[..statNumber] == statements;
      return Ok(());
    }

    /**
     * `executeScripts`: runs the scripts in order and stops at the first
     * failing one; a commit follows every script that was read when
     * `commitAfterScript` is set.
     */
    method ExecuteScripts(conn: Connection, read: string -> Option<seq<string>>) returns (r: Result<(), ScriptError>)
      requires separator.None? || |separator.value| > 0
      modifies conn
      ensures var run := RunScripts(scriptUrls, read, conn.accepts, old(conn.sent), separator, commentPrefix,
                                    AsWrittenTolerance(continueOnError, ignoreFailedDrops));
              r == run.result && conn.sent == old(conn.sent) + run.sent
              && conn.commits == old(conn.commits) + (if commitAfterScript then run.scriptsRead else 0)
    {
      ghost var tolerated := AsWrittenTolerance(continueOnError, ignoreFailedDrops);
      ghost var done: seq<string> := [];
      var i := 0;
      while i < |scriptUrls|
        invariant 0 <= i <= |scriptUrls|
        invariant RunScripts(scriptUrls[..i], read, conn.accepts, old(conn.sent), separator, commentPrefix, tolerated)
                  == ScriptsRun(Ok(()), done, i)
        invariant conn.sent == old(conn.sent) + done
        invariant conn.commits == old(conn.commits) + (if commitAfterScript then i else 0)
      {
        r, done := ExecuteNextScript(conn, read, i, old(conn.sent), done);
        if r.Err? {
          return;
        }
        i := i + 1;
      }
      assert scriptUrls[..i] == scriptUrls;
      r := Ok(());
    }

    /**
     * One turn of the loop of `executeScripts`: script `i`, after the
     * scripts before it succeeded. A failure is the failure of the whole run.
     */
    method ExecuteNextScript(conn: Connection, read: string -> Option<seq<string>>, i: nat,
                             ghost history: seq<string>, ghost done: seq<string>)
      returns (r: Result<(), ScriptError>, ghost done': seq<string>)
      requires separator.None? || |separator.value| > 0
      requires i < |scriptUrls|
      requires RunScripts(scriptUrls[..i], read, conn.accepts, history, separator, commentPrefix,
                          AsWrittenTolerance(continueOnError, ignoreFailedDrops)) == ScriptsRun(Ok(()), done, i)
      requires conn.sent == history + done
      modifies conn
      ensures r.Ok? ==> RunScripts(scriptUrls[..i + 1], read, conn.accepts, history, separator, commentPrefix,
                                   AsWrittenTolerance(continueOnError, ignoreFailedDrops)) == ScriptsRun(Ok(()), done', i + 1)
                        && conn.sent == history + done'
                        && conn.commits == old(conn.commits) + (if commitAfterScript then 1 else 0)
      ensures r.Err? ==> var run := RunScripts(scriptUrls, read, conn.accepts, history, separator, commentPrefix,
                                               AsWrittenTolerance(continueOnError, ignoreFailedDrops));
                         r == run.result && conn.sent == history + run.sent
                         && conn.commits == old(conn.commits) + (if commitAfterScript then run.scriptsRead - i else 0)
    {
      ghost var tolerated := AsWrittenTolerance(continueOnError, ignoreFailedDrops);
      NextScriptRun(scriptUrls, i, read, conn.accepts, history, done, separator, commentPrefix, tolerated);
      ghost var one := RunScript(scriptUrls[i], read, conn.accepts, history + done, separator, commentPrefix, tolerated);
      r := ExecuteScript(conn, scriptUrls[i], read);
      SeqAssoc(history, done, one.sent);
      done' := done + one.sent;
    }
  }

  lemma AllStatementsSnoc(urls: seq<string>, i: nat, read: string -> Option<seq<string>>,
                          separator: Option<string>, commentPrefix: string)
    requires separator.None? || |separator.value| > 0
    requires i < |urls| && AllStatements(urls[..i], read, separator, commentPrefix).Some? && read(urls[i]).Some?
    ensures AllStatements(urls[..i + 1], read, separator, commentPrefix)
            == Some(AllStatements(urls[..i], read, separator, commentPrefix).value
                    + ScriptStatements(read(urls[i]).value, separator, commentPrefix))
  {
    assert urls[..i + 1][..i] == urls[..i];
  }

  /** `scriptBuilder.append( "\n" )` when it is not empty, then the line. */
  method AppendLine(scriptBuilder: string, line: string) returns (r: string)
    ensures r == if |scriptBuilder| == 0 then line else scriptBuilder + "\n" + line
  {
    r := scriptBuilder;
    if |r| > 0 {
      r := r + "\n";
    }
    r := r + line;
  }

  /** The kept lines after one more line of the script has been read. */
  function KeepLine(kept: seq<string>, line: string, commentPrefix: string): seq<string>
  {
    if KeptLine(line, commentPrefix) then kept + [line] else kept
  }

  /** One pass of the line loop of `readScript`: a line is appended when it is code or a block marker. */
  method ReadLine(scriptBuilder: string, line: string, commentPrefix: string, ghost kept: seq<string>)
    returns (r: string)
    requires scriptBuilder == JoinLines(kept)
    requires forall k :: 0 <= k < |kept| ==> |kept[k]| > 0
    ensures r == JoinLines(KeepLine(kept, line, commentPrefix))
    ensures forall k :: 0 <= k < |KeepLine(kept, line, commentPrefix)| ==> |KeepLine(kept, line, commentPrefix)[k]| > 0
  {
    JoinLinesSnoc(kept, line);
    JoinLinesEmpty(kept);
    MarkerStartsWithPrefix(line, commentPrefix);
    var notBlank := StringUtils.IsNotBlank(Some(line));
    var comment := StartsAt(line, commentPrefix, 0);
    var marker := StartsAt(line, StartMarker(commentPrefix), 0) || StartsAt(line, EndMarker(commentPrefix), 0);
    assert KeptLine(line, commentPrefix) <==> notBlank && (!comment || marker);
    r := scriptBuilder;
    if notBlank {
      if !comment {
        r := AppendLine(r, line);
      }
      if marker {
        r := AppendLine(r, line);
      }
    }
  }

  /** The line loop of `readScript`: the kept lines, joined by newlines. */
  method ReadLines(lines: seq<string>, commentPrefix: string) returns (scriptBuilder: string)
    ensures scriptBuilder == JoinLines(KeptLines(lines, commentPrefix))
  {
    scriptBuilder := "";
    ghost var kept: seq<string> := [];
    var i := 0;
    while i < |lines|
      invariant 0 <= i <= |lines|
      invariant kept == KeptLines(lines[..i], commentPrefix)
      invariant scriptBuilder == JoinLines(kept)
      invariant forall k :: 0 <= k < |kept| ==> |kept[k]| > 0
    {
      KeptLinesSnoc(lines, i, commentPrefix);
      scriptBuilder := ReadLine(scriptBuilder, lines[i], commentPrefix, kept);
      kept := KeepLine(kept, lines[i], commentPrefix);
      i := i + 1;
    }
    assert lines[..i] == lines;
  }

  /** Joined non-empty lines are empty only when there are none. */
  lemma JoinLinesEmpty(lines: seq<string>)
    requires forall k :: 0 <= k < |lines| ==> |lines[k]| > 0
    ensures |JoinLines(lines)| == 0 <==> |lines| == 0
  {
    if |lines| > 1 {
      assert |JoinLines(lines)| > 0;
    }
  }

  lemma SeqAssoc(a: seq<string>, b: seq<string>, c: seq<string>)
    ensures (a + b) + c == a + (b + c)
  {
  }

  lemma KeptLinesSnoc(lines: seq<string>, i: nat, commentPrefix: string)
    requires i < |lines|
    ensures KeptLines(lines[..i + 1], commentPrefix) == KeepLine(KeptLines(lines[..i], commentPrefix), lines[i], commentPrefix)
  {
    assert lines[..i + 1][..i] == lines[..i];
  }

  lemma JoinLinesSnoc(lines: seq<string>, line: string)
    ensures JoinLines(lines + [line]) == if |lines| == 0 then line else JoinLines(lines) + "\n" + line
  {
    assert (lines + [line])[..|lines|] == lines;
  }

  /** The block markers begin with the comment prefix, so a line is never appended twice. */
  lemma MarkerStartsWithPrefix(line: string, commentPrefix: string)
    ensures StartsAt(line, StartMarker(commentPrefix), 0) ==> StartsAt(line, commentPrefix, 0)
    ensures StartsAt(line, EndMarker(commentPrefix), 0) ==> StartsAt(line, commentPrefix, 0)
  {
    if StartsAt(line, StartMarker(commentPrefix), 0) {
      assert line[..|commentPrefix|] == line[..|StartMarker(commentPrefix)|][..|commentPrefix|];
    }
    if StartsAt(line, EndMarker(commentPrefix), 0) {
      assert line[..|commentPrefix|] == line[..|EndMarker(commentPrefix)|][..|commentPrefix|];
    }
  }
}
