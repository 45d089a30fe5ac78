/**
 * `LocalCommandExecutorJob.prepareCommandLine`: the command path followed by
 * the arguments cut out of the argument string by the regular expression
 * `"([^"]*)"|'([^']*)'|[^\s]+`.
 */
module LocalCommandExecutorJob {
  import opened Jdk

  /** `\s` of `java.util.regex`: space, tab, line feed, vertical tab, form feed and carriage return. */
  predicate IsRegexSpace(c: char)
  {
    c == ' ' || (9 <= c as int <= 13)
  }

  predicate HasNoSpace(s: string)
  {
    forall i :: 0 <= i < |s| ==> !IsRegexSpace(s[i])
  }

  /** Length of the run of non-space characters that starts `s`: what `[^\s]+` matches greedily. */
  function RunLength(s: string): (n: nat)
    ensures n <= |s|
    ensures |s| > 0 && !IsRegexSpace(s[0]) ==> n > 0
  {
    if |s| == 0 || IsRegexSpace(s[0]) then 0 else 1 + RunLength(s[1..])
  }

  /** The run is free of spaces and ends at a space or at the end of `s`. */
  lemma {:induction false} RunLengthIsRun(s: string)
    ensures HasNoSpace(s[..RunLength(s)])
    ensures RunLength(s) < |s| ==> IsRegexSpace(s[RunLength(s)])
  {
    if |s| > 0 && !IsRegexSpace(s[0]) {
      RunLengthIsRun(s[1..]);
      assert s[..RunLength(s)] == [s[0]] + s[1..][..RunLength(s[1..])];
    }
  }

  /** Index of the first `c` in `s`, or `|s|` when there is none. */
  function FirstOf(s: string, c: char): (n: nat)
    ensures n <= |s|
  {
    if |s| == 0 || s[0] == c then 0 else 1 + FirstOf(s[1..], c)
  }

  /** No `c` comes before the index `FirstOf` gives, and a `c` sits there unless it is the end. */
  lemma {:induction false} FirstOfIsFirst(s: string, c: char)
    ensures forall k :: 0 <= k < FirstOf(s, c) ==> s[k] != c
    ensures FirstOf(s, c) < |s| ==> s[FirstOf(s, c)] == c
  {
    if |s| > 0 && s[0] != c {
      FirstOfIsFirst(s[1..], c);
      assert forall k :: 1 <= k < FirstOf(s, c) ==> s[k] == s[1..][k - 1];
    }
  }

  /**
   * The arguments the `matcher.find()` loop adds for `s`, in order. At each
   * position the alternatives are tried in turn: a quote with a matching
   * closing quote later on gives the text between them (possibly empty); any
   * other non-space character starts a greedy run of non-space characters,
   * unmatched quotes included; a space matches nothing and is skipped.
   */
  function Arguments(s: string): (r: seq<string>)
    decreases |s|
  {
    if |s| == 0 then []
    else if IsRegexSpace(s[0]) then Arguments(s[1..])
    else if (s[0] == '"' || s[0] == '\'') && FirstOf(s[1..], s[0]) < |s| - 1 then
      var j := FirstOf(s[1..], s[0]);
      [s[1..j + 1]] + Arguments(s[j + 2..])
    else
      var n := RunLength(s);
      [s[..n]] + Arguments(s[n..])
  }

  lemma {:induction false} FirstOfAfter(a: string, c: char, rest: string)
    requires c !in a
    ensures FirstOf(a + [c] + rest, c) == |a|
  {
    if |a| > 0 {
      assert (a + [c] + rest)[1..] == a[1..] + [c] + rest;
      FirstOfAfter(a[1..], c, rest);
    }
  }

  lemma {:induction false} RunLengthBefore(w: string, rest: string)
    requires HasNoSpace(w) && |rest| > 0 && IsRegexSpace(rest[0])
    ensures RunLength(w + rest) == |w|
  {
    if |w| > 0 {
      assert (w + rest)[1..] == w[1..] + rest;
      assert HasNoSpace(w[1..]) by {
        forall i | 0 <= i < |w[1..]| ensures !IsRegexSpace(w[1..][i]) {
          assert w[1..][i] == w[i + 1];
        }
      }
      RunLengthBefore(w[1..], rest);
    }
  }

  lemma ArgumentsAtSpace(s: string)
    requires |s| > 0 && IsRegexSpace(s[0])
    ensures Arguments(s) == Arguments(s[1..])
  {
  }

  lemma ArgumentsAtQuote(s: string, j: nat)
    requires |s| > 0 && (s[0] == '"' || s[0] == '\'') && j == FirstOf(s[1..], s[0]) && j < |s| - 1
    ensures Arguments(s) == [s[1..j + 1]] + Arguments(s[j + 2..])
  {
  }

  lemma ArgumentsAtRun(s: string, n: nat)
    requires |s| > 0 && !IsRegexSpace(s[0]) && n == RunLength(s)
    requires !((s[0] == '"' || s[0] == '\'') && FirstOf(s[1..], s[0]) < |s| - 1)
    ensures Arguments(s) == [s[..n]] + Arguments(s[n..])
  {
  }

  /**
   * One step of the scan at `pos`: a skipped space, or the argument of the
   * match that starts there and the position after it.
   */
  method Step(s: string, pos: nat) returns (arg: Option<string>, next: nat)
    requires pos < |s|
    ensures pos < next <= |s|
    ensures arg.None? ==> Arguments(s[pos..]) == Arguments(s[next..])
    ensures arg.Some? ==> Arguments(s[pos..]) == [arg.value] + Arguments(s[next..])
  {
    if IsRegexSpace(s[pos]) {
      ArgumentsAtSpaceIn(s, pos);
      return None, pos + 1;
    }
    var j := FirstOf(s[pos + 1..], s[pos]);
    if (s[pos] == '"' || s[pos] == '\'') && j < |s| - pos - 1 {
      ArgumentsAtQuoteIn(s, pos, j);
      return Some(s[pos + 1..pos + 1 + j]), pos + j + 2;
    }
    var run;
    run, next := Run(s, pos);
    arg := Some(run);
  }

  /** A match of `[^\s]+` at `pos`, where no quoted argument starts. */
  method Run(s: string, pos: nat) returns (run: string, next: nat)
    requires pos < |s| && !IsRegexSpace(s[pos])
    requires !((s[pos] == '"' || s[pos] == '\'') && FirstOf(s[pos + 1..], s[pos]) < |s| - pos - 1)
    ensures pos < next <= |s|
    ensures Arguments(s[pos..]) == [run] + Arguments(s[next..])
  {
    var n := RunLength(s[pos..]);
    ArgumentsAtRunIn(s, pos, n);
    run, next := s[pos..pos + n], pos + n;
  }

  lemma ArgumentsAtSpaceIn(s: string, pos: nat)
    requires pos < |s| && IsRegexSpace(s[pos])
    ensures Arguments(s[pos..]) == Arguments(s[pos + 1..])
  {
    assert s[pos..][1..] == s[pos + 1..];
    ArgumentsAtSpace(s[pos..]);
  }

  lemma ArgumentsAtQuoteIn(s: string, pos: nat, j: nat)
    requires pos < |s| && (s[pos] == '"' || s[pos] == '\'')
    requires j == FirstOf(s[pos + 1..], s[pos]) && j < |s| - pos - 1
    ensures Arguments(s[pos..]) == [s[pos + 1..pos + 1 + j]] + Arguments(s[pos + j + 2..])
  {
    var rest := s[pos..];
    assert rest[1..] == s[pos + 1..];
    ArgumentsAtQuote(rest, j);
    assert rest[1..j + 1] == s[pos + 1..pos + 1 + j];
    assert rest[j + 2..] == s[pos + j + 2..];
  }

  lemma ArgumentsAtRunIn(s: string, pos: nat, n: nat)
    requires pos < |s| && !IsRegexSpace(s[pos]) && n == RunLength(s[pos..])
    requires !((s[pos] == '"' || s[pos] == '\'') && FirstOf(s[pos + 1..], s[pos]) < |s| - pos - 1)
    ensures 0 < n && pos + n <= |s|
    ensures Arguments(s[pos..]) == [s[pos..pos + n]] + Arguments(s[pos + n..])
  {
    var rest := s[pos..];
    assert rest[1..] == s[pos + 1..];
    ArgumentsAtRun(rest, n);
    assert rest[..n] == s[pos..pos + n] && rest[n..] == s[pos + n..];
  }

  /** `prepareCommandLine`: the path first, then the arguments of a non-null argument string. */
  method PrepareCommandLine(commandPath: string, commandArgs: Option<string>) returns (commandLine: seq<string>)
    ensures commandLine == [commandPath] + (if commandArgs.Some? then Arguments(commandArgs.value) else [])
  {
    commandLine := [commandPath];
    if commandArgs.Some? {
      var s := commandArgs.value;
      var pos := 0;
      assert s[pos..] == s;
      while pos < |s|
        invariant 0 <= pos <= |s|
        invariant commandLine + Arguments(s[pos..]) == [commandPath] + Arguments(s)
        decreases |s| - pos
      {
        var arg, next := Step(s, pos);
        if arg.Some? {
          ghost var tail := Arguments(s[next..]);
          assert commandLine + [arg.value] + tail == commandLine + ([arg.value] + tail);
          commandLine := commandLine + [arg.value];
        }
        pos := next;
      }
      assert s[pos..] == [];
    }
  }

  /** An argument between double quotes, followed by a space. */
  function Quoted(a: string): string
  {
    ['"'] + a + ['"', ' ']
  }

  lemma ArgumentsOfQuoted(a: string, tail: string)
    requires '"' !in a
    ensures Arguments(Quoted(a) + tail) == [a] + Arguments(tail)
  {
    var s := Quoted(a) + tail;
    assert s[1..] == a + ['"'] + ([' '] + tail);
    FirstOfAfter(a, '"', [' '] + tail);
    ArgumentsAtQuote(s, |a|);
    assert s[1..|a| + 1] == a;
    assert s[|a| + 2..] == [' '] + tail;
    ArgumentsAtSpace([' '] + tail);
    assert ([' '] + tail)[1..] == tail;
  }

  /** Arguments written each between double quotes, followed by a space. */
  function QuotedLine(args: seq<string>): (s: string)
    ensures |args| > 0 ==> |s| > 0 && s[0] == '"'
  {
    if |args| == 0 then "" else Quoted(args[0]) + QuotedLine(args[1..])
  }

  /** Words followed each by a space. */
  function WordLine(words: seq<string>): (s: string)
  {
    if |words| == 0 then "" else words[0] + " " + WordLine(words[1..])
  }

  /** Quoting is a faithful way to pass any arguments free of double quotes, empty ones and ones with spaces included. */
  lemma {:induction false} ArgumentsOfQuotedLine(args: seq<string>)
    requires forall k :: 0 <= k < |args| ==> '"' !in args[k]
    ensures Arguments(QuotedLine(args)) == args
  {
    if |args| > 0 {
      ArgumentsOfQuoted(args[0], QuotedLine(args[1..]));
      ArgumentsOfQuotedLine(args[1..]);
    }
  }

  /** Unquoted words come back one by one, unchanged. */
  lemma {:induction false} ArgumentsOfWordLine(words: seq<string>)
    requires forall k :: 0 <= k < |words| ==> |words[k]| > 0 && HasNoSpace(words[k])
    requires forall k :: 0 <= k < |words| ==> words[k][0] != '"' && words[k][0] != '\''
    ensures Arguments(WordLine(words)) == words
  {
    if |words| > 0 {
      var w := words[0];
      var tail := WordLine(words[1..]);
      var s := WordLine(words);
      assert s == w + ([' '] + tail);
      RunLengthBefore(w, [' '] + tail);
      ArgumentsAtRun(s, |w|);
      assert s[..|w|] == w;
      assert s[|w|..] == [' '] + tail;
      ArgumentsAtSpace([' '] + tail);
      assert ([' '] + tail)[1..] == tail;
      ArgumentsOfWordLine(words[1..]);
    }
  }

  function Concat(parts: seq<string>): string
  {
    if |parts| == 0 then "" else parts[0] + Concat(parts[1..])
  }

  function RemoveSpaces(s: string): (r: string)
    ensures HasNoSpace(r)
  {
    if |s| == 0 then ""
    else if IsRegexSpace(s[0]) then RemoveSpaces(s[1..])
    else [s[0]] + RemoveSpaces(s[1..])
  }

  lemma {:induction false} RemoveSpacesOfRun(s: string, n: nat)
    requires n <= |s| && HasNoSpace(s[..n])
    ensures RemoveSpaces(s) == s[..n] + RemoveSpaces(s[n..])
  {
    if n > 0 {
      assert !IsRegexSpace(s[..n][0]);
      RemoveSpacesOfRun(s[1..], n - 1);
      assert s[1..][..n - 1] == s[..n][1..];
      assert s[1..][n - 1..] == s[n..];
    }
  }

  /**
   * Without quote characters the arguments are the non-empty space-free
   * runs of the string: none holds a space, and together they hold every
   * non-space character in order.
   */
  lemma {:induction false} ArgumentsWithoutQuotes(s: string)
    requires '"' !in s && '\'' !in s
    ensures forall k :: 0 <= k < |Arguments(s)| ==> |Arguments(s)[k]| > 0 && HasNoSpace(Arguments(s)[k])
    ensures Concat(Arguments(s)) == RemoveSpaces(s)
    decreases |s|
  {
    if |s| > 0 {
      if IsRegexSpace(s[0]) {
        assert '"' !in s[1..] && '\'' !in s[1..];
        ArgumentsWithoutQuotes(s[1..]);
      } else {
        var n := RunLength(s);
        RunLengthIsRun(s);
        assert '"' !in s[n..] && '\'' !in s[n..];
        ArgumentsWithoutQuotes(s[n..]);
        RemoveSpacesOfRun(s, n);
        assert Arguments(s) == [s[..n]] + Arguments(s[n..]);
        assert Concat(Arguments(s)) == s[..n] + Concat(Arguments(s[n..]));
      }
    }
  }
}
