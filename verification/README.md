# quartzdesk-executor core, modelled in Dafny

This project models the core of the QuartzDesk job executor, a Quartz-based service.
It covers five parts of the system.

- **Database schema management.** The schema manager compares the product version with the
  latest row of the schema-update history. From that comparison it either initializes the
  schema or upgrades it. An upgrade runs the scripts of every `D_D_D` upgrade directory
  whose version lies in the range (current, desired], in ascending version order, then
  records the new version. A downgrade is refused.
- **The SQL script executor.** It reads a script from a list of lines and drops the comment
  lines. It picks the statement delimiter and splits the script into statements, honouring
  quotes, escapes, comments and the blocks enclosed by the `-- [statement]` and
  `-- [/statement]` comment markers. It runs the statements on a connection
  under its continue-on-error and ignore-failed-drops policies, and commits after each
  script when configured to.
- **Version values.** This covers parsing, printing and comparing `Version`, plus the
  domain-side converter and comparator.
- **Text processing.** `MacroExpander` expands `${name}` and `${name,pattern}` macros.
  `JobDataMapBuilder` builds the macro table and expands job-data values repeatedly.
  `UTF8Map` loads `.properties`-style key/value files. The executor job tokenises its
  command line.
- **Small utilities.** These are null-safe equality and comparison, cause chains, blank
  tests, duration and time-zone formatting, the stop watch, `TimestampWithTZ` arithmetic and
  the Boolean/integer Hibernate user type.

One Dafny module stands for each source file.

- Modules for source code that only computes are written as functions and lemmas.
- The objects whose fields the source updates become classes with `modifies` frames. These
  are `SchemaManager`, `SchemaDao`, `ScriptExecutor`, the JDBC `Connection`, `StopWatch`,
  `TimestampWithTZ` and `UTF8Map`.
- Each loop of the source is a method. Its `ensures` ties the result to a specification
  function, and lemmas prove that function's properties.
- `Jdk` models the parts of `java.lang` and `java.util` that the core relies on:
  - 32- and 64-bit wrap-around and truncating division;
  - the `String` operations `trim`, `compareTo`, `indexOf`, `split` and ASCII `toUpperCase`;
  - `Integer.parseInt` and `Integer.toString`.

The environment is passed in as parameters:

- A classpath listing is a function from a pattern to `Option<seq<path>>`, where `None`
  stands for an `IOException`.
- Reading a script or a properties file is a function from a URL to `Option<seq<line>>`.
- The JDBC connection is a class. It records the statements sent and the number of commits,
  and an `accepts` oracle decides whether a statement succeeds.
- Clocks are passed in as `now` parameters.
- Schema-update history is a sequence of rows in a `SchemaDao` object.

## Model

| member | source | states |
|---|---|---|
| BooleanIntegerUT.NullSafeGet | quartzdesk-executor-dao/src/main/java/com/quartzdesk/executor/dao/hibernate/usertype/basic/BooleanIntegerUT.java:57-71 | SQL NULL reads as null; an error happens exactly for a value other than 0 and 1, and names that value; a Boolean read back comes from 1 for true and 0 for false |
| BooleanIntegerUT.NullSafeSet | quartzdesk-executor-dao/src/main/java/com/quartzdesk/executor/dao/hibernate/usertype/basic/BooleanIntegerUT.java:75-86 | null exactly for null; 1 exactly for true and 0 exactly for false |
| BooleanIntegerUT.GetOfSet | quartzdesk-executor-dao/src/main/java/com/quartzdesk/executor/dao/hibernate/usertype/basic/BooleanIntegerUT.java:57-86 | reading back what was written gives the original Boolean, null included |
| BooleanIntegerUT.SetOfGet | quartzdesk-executor-dao/src/main/java/com/quartzdesk/executor/dao/hibernate/usertype/basic/BooleanIntegerUT.java:57-86 | a column value that reads without error is written back unchanged |
| BooleanIntegerUT.Equals | quartzdesk-executor-dao/src/main/java/com/quartzdesk/executor/dao/hibernate/usertype/basic/BooleanIntegerUT.java:43-46 | false whenever the first value is null, so two nulls are unequal; otherwise true exactly when the values are equal |
| LocalCommandExecutorJob.PrepareCommandLine | quartzdesk-executor-core/src/main/java/com/quartzdesk/executor/core/job/LocalCommandExecutorJob.java:167-199 | the command line is the command path followed by the arguments tokenised from the argument string, in order; with no argument string it is the path alone |
| LocalCommandExecutorJob.Step | quartzdesk-executor-core/src/main/java/com/quartzdesk/executor/core/job/LocalCommandExecutorJob.java:177-195 | one step of the find loop moves forward: at white space no argument is added and the remaining arguments are the same; at a match the argument found is the first of the remaining arguments |
| LocalCommandExecutorJob.Run | quartzdesk-executor-core/src/main/java/com/quartzdesk/executor/core/job/LocalCommandExecutorJob.java:190-194 | an unquoted word, or a quote without its closing quote, gives the first remaining argument and the position after it |
| LocalCommandExecutorJob.RunLength | quartzdesk-executor-core/src/main/java/com/quartzdesk/executor/core/job/LocalCommandExecutorJob.java:177 | the length of the leading run of non-white-space characters: at most the input length, and positive when the input starts with a non-white-space character |
| LocalCommandExecutorJob.RunLengthIsRun | quartzdesk-executor-core/src/main/java/com/quartzdesk/executor/core/job/LocalCommandExecutorJob.java:177 | the run is maximal: every character in it is non-white-space and the next one, if any, is white space |
| LocalCommandExecutorJob.FirstOf | quartzdesk-executor-core/src/main/java/com/quartzdesk/executor/core/job/LocalCommandExecutorJob.java:177 | the position of a character's first occurrence, at most the length (the length when it is absent) |
| LocalCommandExecutorJob.FirstOfIsFirst | quartzdesk-executor-core/src/main/java/com/quartzdesk/executor/core/job/LocalCommandExecutorJob.java:177 | no earlier position holds the character, and the position found holds it unless it is the end |
| LocalCommandExecutorJob.ArgumentsAtSpace | quartzdesk-executor-core/src/main/java/com/quartzdesk/executor/core/job/LocalCommandExecutorJob.java:177-178 | white space between matches produces no argument |
| LocalCommandExecutorJob.ArgumentsAtSpaceIn | quartzdesk-executor-core/src/main/java/com/quartzdesk/executor/core/job/LocalCommandExecutorJob.java:177-178 | the same fact at any position inside the argument string |
| LocalCommandExecutorJob.ArgumentsAtQuote | quartzdesk-executor-core/src/main/java/com/quartzdesk/executor/core/job/LocalCommandExecutorJob.java:177-189 | a text opened by a double or single quote and closed by the same quote becomes one argument without its quotes, possibly empty |
| LocalCommandExecutorJob.ArgumentsAtQuoteIn | quartzdesk-executor-core/src/main/java/com/quartzdesk/executor/core/job/LocalCommandExecutorJob.java:177-189 | the same fact at any position inside the argument string |
| LocalCommandExecutorJob.ArgumentsAtRun | quartzdesk-executor-core/src/main/java/com/quartzdesk/executor/core/job/LocalCommandExecutorJob.java:177-194 | otherwise a non-white-space start yields its maximal non-white-space run as one argument, so an unclosed quote is kept inside a word |
| LocalCommandExecutorJob.ArgumentsAtRunIn | quartzdesk-executor-core/src/main/java/com/quartzdesk/executor/core/job/LocalCommandExecutorJob.java:177-194 | the same fact at any position inside the argument string |
| LocalCommandExecutorJob.ArgumentsOfQuoted | quartzdesk-executor-core/src/main/java/com/quartzdesk/executor/core/job/LocalCommandExecutorJob.java:180-184 | a double-quoted text without inner double quotes is read back as exactly that text, followed by the arguments of what comes after |
| LocalCommandExecutorJob.ArgumentsOfQuotedLine | quartzdesk-executor-core/src/main/java/com/quartzdesk/executor/core/job/LocalCommandExecutorJob.java:177-195 | round trip: arguments without double quotes, each double-quoted and joined, tokenise back to the same list |
| LocalCommandExecutorJob.ArgumentsOfWordLine | quartzdesk-executor-core/src/main/java/com/quartzdesk/executor/core/job/LocalCommandExecutorJob.java:177-195 | round trip: non-empty words without white space that do not start with a quote, joined by spaces, tokenise back to the same words |
| LocalCommandExecutorJob.ArgumentsWithoutQuotes | quartzdesk-executor-core/src/main/java/com/quartzdesk/executor/core/job/LocalCommandExecutorJob.java:177-195 | without quote characters every argument is non-empty and free of white space, and their concatenation is the input with its white space removed, so nothing is lost or reordered |
| CommonUtils.SafeEquals | quartzdesk-executor-common/src/main/java/com/quartzdesk/executor/common/CommonUtils.java:41-75 | true exactly when the two values are equal, where arrays are equal when they have the same length, the same component type and pairwise safe-equal elements |
| CommonUtils.SafeCompare | quartzdesk-executor-common/src/main/java/com/quartzdesk/executor/common/CommonUtils.java:111-123 | 1 when only the second value is null, -1 when only the first is null, 0 for the same value, and compareTo's result when both are present and differ |
| CommonUtils.SafeCompareZeroIff | quartzdesk-executor-common/src/main/java/com/quartzdesk/executor/common/CommonUtils.java:111-123 | when compareTo is zero exactly for equal values, safeCompare is zero exactly for equal values, nulls included |
| CommonUtils.SafeCompareAntisymmetric | quartzdesk-executor-common/src/main/java/com/quartzdesk/executor/common/CommonUtils.java:111-123 | when compareTo is antisymmetric, swapping the arguments negates the sign of safeCompare, nulls included |
| CommonUtils.SafeCompareStrings | quartzdesk-executor-common/src/main/java/com/quartzdesk/executor/common/CommonUtils.java:111-123 | two strings compare by String.compareTo; the result is zero exactly for equal values, with null equal only to null |
| CommonUtils.SafeCompareStringsAntisymmetric | quartzdesk-executor-common/src/main/java/com/quartzdesk/executor/common/CommonUtils.java:111-123 | swapping the arguments negates the result |
| CommonUtils.SafeCompareStringsTransitive | quartzdesk-executor-common/src/main/java/com/quartzdesk/executor/common/CommonUtils.java:111-123 | the string order is transitive, so it can sort |
| CommonUtils.GetCause | quartzdesk-executor-common/src/main/java/com/quartzdesk/executor/common/CommonUtils.java:287-298 | an SQLException's cause is its next exception; any other throwable's is its cause |
| CommonUtils.CauseChain | quartzdesk-executor-common/src/main/java/com/quartzdesk/executor/common/CommonUtils.java:307-315 | the chain is non-empty and starts at the given throwable |
| CommonUtils.CauseChainLinks | quartzdesk-executor-common/src/main/java/com/quartzdesk/executor/common/CommonUtils.java:307-315 | each element of the chain is followed by its getCause, and the last element has no cause |
| CommonUtils.GetRootCause | quartzdesk-executor-common/src/main/java/com/quartzdesk/executor/common/CommonUtils.java:307-315 | the result is the last element of the cause chain, and it has no cause |
| CommonUtils.FramesInCommon | quartzdesk-executor-common/src/main/java/com/quartzdesk/executor/common/CommonUtils.java:250-260 | the number of trailing frames the two stack traces share: those suffixes are equal, and the frames just before them differ unless one trace is used up |
| CoreCommonUtils.SafeEquals | quartzdesk-executor-core/src/main/java/com/quartzdesk/executor/core/CommonUtils.java:48-82 | true exactly when the two values are equal, with arrays compared by length, component type and element |
| CoreCommonUtils.SafeEqualsIgnoreCase | quartzdesk-executor-core/src/main/java/com/quartzdesk/executor/core/CommonUtils.java:94-106 | two nulls are equal; null and a string are unequal; two strings are equal exactly when their upper-cased forms agree |
| CoreCommonUtils.MaxInteger | quartzdesk-executor-core/src/main/java/com/quartzdesk/executor/core/CommonUtils.java:154-160 | one of the two arguments, and at least each of them in the order where null is lowest |
| CoreCommonUtils.MaxInt | quartzdesk-executor-core/src/main/java/com/quartzdesk/executor/core/CommonUtils.java:170-173 | one of the two arguments, and at least each of them |
| CoreCommonUtils.MinInteger | quartzdesk-executor-core/src/main/java/com/quartzdesk/executor/core/CommonUtils.java:184-190 | one of the two arguments, at most each of them with null lowest, and null exactly when either argument is null |
| CoreCommonUtils.MinInt | quartzdesk-executor-core/src/main/java/com/quartzdesk/executor/core/CommonUtils.java:200-203 | one of the two arguments, and at most each of them |
| CoreCommonUtils.NullOrEmpty | quartzdesk-executor-core/src/main/java/com/quartzdesk/executor/core/CommonUtils.java:339-342 | true exactly for null and the empty string |
| CoreCommonUtils.NullOrEmptyIsBlank | quartzdesk-executor-core/src/main/java/com/quartzdesk/executor/core/CommonUtils.java:339-342 | a null or empty string is blank, while "  " is blank but not null-or-empty |
| CoreCommonUtils.GetAbsoluteResourceName | quartzdesk-executor-core/src/main/java/com/quartzdesk/executor/core/CommonUtils.java:245-251 | the package part with no '.', then '/', then the resource name, with the lengths adding up |
| CoreCommonUtils.AbsoluteResourceNameRecoversPackage | quartzdesk-executor-core/src/main/java/com/quartzdesk/executor/core/CommonUtils.java:245-251 | for a package name without '/', turning '/' back into '.' in the prefix gives back the package name |
| CoreCommonUtils.GetRootCause | quartzdesk-executor-core/src/main/java/com/quartzdesk/executor/core/CommonUtils.java:442-470 | the last element of the cause chain, which has no cause |
| StringUtils.IsBlank | quartzdesk-executor-common/src/main/java/com/quartzdesk/executor/common/text/StringUtils.java:31-34 | null and "" are blank; a string is blank exactly when every character is at most U+0020, which is what trim removes |
| StringUtils.IsNotBlank | quartzdesk-executor-common/src/main/java/com/quartzdesk/executor/common/text/StringUtils.java:45-48 | the negation of isBlank: a non-null string with some character above U+0020 |
| DateTimeUtils.DecomposeRecombines | quartzdesk-executor-common/src/main/java/com/quartzdesk/executor/common/DateTimeUtils.java:119-160 | the days/hours/minutes/seconds/millis split of a duration is within unit range and adds back up to the duration |
| DateTimeUtils.DecomposeUnique | quartzdesk-executor-common/src/main/java/com/quartzdesk/executor/common/DateTimeUtils.java:119-160 | any in-range split that adds up to the duration is the split |
| DateTimeUtils.WholeUnits | quartzdesk-executor-common/src/main/java/com/quartzdesk/executor/common/DateTimeUtils.java:119-160 | for the split of a duration, the whole days, hours, minutes and seconds of the duration and its leftover milliseconds are given by the parts |
| DateTimeUtils.WholeDaysAndHours | quartzdesk-executor-common/src/main/java/com/quartzdesk/executor/common/DateTimeUtils.java:119-160 | for the split of a duration, its whole days and whole hours are given by the parts |
| DateTimeUtils.Pad2ReadsBack | quartzdesk-executor-common/src/main/java/com/quartzdesk/executor/common/DateTimeUtils.java:139-151 | a value below 100 is printed as exactly two digits that read back as the value |
| DateTimeUtils.Pad3ReadsBack | quartzdesk-executor-common/src/main/java/com/quartzdesk/executor/common/DateTimeUtils.java:101-105 | a value below 1000 is printed as exactly three digits that read back as the value |
| DateTimeUtils.LongPartsDecompose | quartzdesk-executor-common/src/main/java/com/quartzdesk/executor/common/DateTimeUtils.java:119-160 | the same unit arithmetic done in 64-bit longs with truncating division gives exactly the split, for every non-negative duration |
| DateTimeUtils.AsWrittenAgreesBelowIntRange | quartzdesk-executor-common/src/main/java/com/quartzdesk/executor/common/DateTimeUtils.java:123-133 | for 0 <= duration < 2^31 ms, the parts computed through the (int) casts equal the split |
| DateTimeUtils.AsWrittenFailsAtIntRange | quartzdesk-executor-common/src/main/java/com/quartzdesk/executor/common/DateTimeUtils.java:123-133 | at 2^31 ms the (int)-cast parts are -24 days, -20 h, -31 min, -23 s and 4294966648 ms, against the true 24 days 20:31:23.648 |
| DateTimeUtils.FormatDurationAsWritten | quartzdesk-executor-common/src/main/java/com/quartzdesk/executor/common/DateTimeUtils.java:119-160 | the text built from the parts as the source computes them; below 2^31 ms it is the correct duration text |
| DateTimeUtils.FormatDuration | quartzdesk-executor-common/src/main/java/com/quartzdesk/executor/common/DateTimeUtils.java:119-160 | for a non-negative duration, the text of its split: no day prefix under one day, "1 day ", or the day count and " days ", then hh:mm:ss.SSS |
| DateTimeUtils.FormatDurationSSmm | quartzdesk-executor-common/src/main/java/com/quartzdesk/executor/common/DateTimeUtils.java:89-111 | for 0 <= duration < 2^31 ms: the whole seconds padded to at least two digits, '.', then the milliseconds padded to three digits |
| DateTimeUtils.OffsetTextReadsBack | quartzdesk-executor-common/src/main/java/com/quartzdesk/executor/common/DateTimeUtils.java:761-791 | for offsets within 18 hours, the text is "UTC", a sign, two digits of hours, ':' and two digits of minutes under 60, which read back to the offset's whole minutes |
| DateTimeUtils.FormatTimeZoneOffset | quartzdesk-executor-common/src/main/java/com/quartzdesk/executor/common/DateTimeUtils.java:761-791 | the method builds the offset text of the zone's offset in milliseconds |
| DateTimeUtils.OffsetUnits | quartzdesk-executor-common/src/main/java/com/quartzdesk/executor/common/DateTimeUtils.java:765-766 | the hours and minutes taken with truncating division are those of the absolute offset, so the sign is printed once |
| DateTimeUtils.FormatTimeZone | quartzdesk-executor-common/src/main/java/com/quartzdesk/executor/common/DateTimeUtils.java:821-826 | "(" + offset text + ") " followed by the zone id with each '_' turned into a space and every other character kept |
| JobDataMapBuilder.ExecType | quartzdesk-executor-core/src/main/java/com/quartzdesk/executor/core/JobDataMapBuilder.java:293-314 | NORMAL exactly when the trigger group is not one of the four QD_ groups; otherwise the group without its "QD_" prefix |
| JobDataMapBuilder.ExecTypeInjective | quartzdesk-executor-core/src/main/java/com/quartzdesk/executor/core/JobDataMapBuilder.java:293-314 | two QD_ groups with the same execution type are the same group |
| JobDataMapBuilder.TriggerType | quartzdesk-executor-core/src/main/java/com/quartzdesk/executor/core/JobDataMapBuilder.java:324-349 | null exactly for a trigger of another kind; otherwise one of the four names SIMPLE, CRON, CALENDAR_INTERVAL and DAILY_TIME_INTERVAL |
| JobDataMapBuilder.TriggerTypeInjective | quartzdesk-executor-core/src/main/java/com/quartzdesk/executor/core/JobDataMapBuilder.java:324-349 | different trigger kinds get different names |
| JobDataMapBuilder.CreateJobExecutionId | quartzdesk-executor-core/src/main/java/com/quartzdesk/executor/core/JobDataMapBuilder.java:395-401 | null exactly when the fire instance id is null; otherwise the fire id, followed by "@" and the text of the scheduler's JMX object name when there is one |
| JobDataMapBuilder.JobExecutionIdSplits | quartzdesk-executor-core/src/main/java/com/quartzdesk/executor/core/JobDataMapBuilder.java:395-401 | for a fire id without '@', the fire id and the scheduler name are recovered by cutting the execution id at its first '@' |
| JobDataMapBuilder.JobDataMapMacroName | quartzdesk-executor-core/src/main/java/com/quartzdesk/executor/core/JobDataMapBuilder.java:278 | the name is "JOB_DATA_MAP[" + key + "]" |
| JobDataMapBuilder.JobDataMapKeyOfName | quartzdesk-executor-core/src/main/java/com/quartzdesk/executor/core/JobDataMapBuilder.java:278 | the key is recovered from the macro name, so different keys give different macro names |
| JobDataMapBuilder.JobDataMapMacros | quartzdesk-executor-core/src/main/java/com/quartzdesk/executor/core/JobDataMapBuilder.java:273-280 | each job-data key k has exactly one macro, JOB_DATA_MAP[k], with k's value |
| JobDataMapBuilder.CreateMacros | quartzdesk-executor-core/src/main/java/com/quartzdesk/executor/core/JobDataMapBuilder.java:174-283 | the keys are the context macros plus one JOB_DATA_MAP[k] per job-data key; job-data entries override, and context macros are kept otherwise |
| JobDataMapBuilder.Expand | quartzdesk-executor-core/src/main/java/com/quartzdesk/executor/core/JobDataMapBuilder.java:140 | with the default '$' start character, expandMacros never fails on a non-null value, and this is its result |
| JobDataMapBuilder.ExpandPass | quartzdesk-executor-core/src/main/java/com/quartzdesk/executor/core/JobDataMapBuilder.java:140-147 | the step of the build loop is one full expandMacros pass with the built macro table |
| JobDataMapBuilder.SeenIsEarlierPasses | quartzdesk-executor-core/src/main/java/com/quartzdesk/executor/core/JobDataMapBuilder.java:139-148 | a value is in the seen set exactly when it is one of the earlier iterates |
| JobDataMapBuilder.ExpandUntilRepeat | quartzdesk-executor-core/src/main/java/com/quartzdesk/executor/core/JobDataMapBuilder.java:139-148 | the loop stops at the first iterate already seen, and the method returns that iterate (None when the fuel runs out) |
| JobDataMapBuilder.SettledValueRepeats | quartzdesk-executor-core/src/main/java/com/quartzdesk/executor/core/JobDataMapBuilder.java:144-148 | a settled value is an iterate that repeats an earlier one |
| JobDataMapBuilder.SettlesWhenRepeating | quartzdesk-executor-core/src/main/java/com/quartzdesk/executor/core/JobDataMapBuilder.java:144-148 | when iterates i and j coincide, the loop settles within enough fuel |
| JobDataMapBuilder.SettledFixedPoint | quartzdesk-executor-core/src/main/java/com/quartzdesk/executor/core/JobDataMapBuilder.java:140-149 | a value that expansion leaves unchanged is stored as it is |
| JobDataMapBuilder.Build | quartzdesk-executor-core/src/main/java/com/quartzdesk/executor/core/JobDataMapBuilder.java:126-159 | None exactly when some String value fails to settle within the fuel; otherwise the same keys, each String value is its settled expansion, and other values are unchanged |
| JobDataMapBuilder.JobDataMapMacroNameParses | quartzdesk-executor-core/src/main/java/com/quartzdesk/executor/core/JobDataMapBuilder.java:278 | for a key without ',' or '}', the name JOB_DATA_MAP[k] contains no '}' and parses as that macro name without a format pattern |
| JobDataMapBuilder.ExpandJobDataReference | quartzdesk-executor-core/src/main/java/com/quartzdesk/executor/core/JobDataMapBuilder.java:273-280 | after a prefix with no macro start, "${JOB_DATA_MAP[k]}" is replaced by the rendered value of that macro |
| JobDataMapBuilder.ExpandsJobDataEntry | quartzdesk-executor-core/src/main/java/com/quartzdesk/executor/core/JobDataMapBuilder.java:273-280 | with the table createMacros builds, "${JOB_DATA_MAP[k]}" expands to the rendered job-data value of k, whatever the context macros are |
| JobDataMapBuilder.ExpandLoneReference | quartzdesk-executor-core/src/main/java/com/quartzdesk/executor/core/JobDataMapBuilder.java:273-280 | a value that is just "${JOB_DATA_MAP[k]}" expands to the rendered value of that macro |
| JobDataMapBuilder.SelfReferencePasses | quartzdesk-executor-core/src/main/java/com/quartzdesk/executor/core/JobDataMapBuilder.java:144-148 | when k maps to "x${JOB_DATA_MAP[k]}", the n-th pass over that value gives n+1 'x's followed by the reference |
| JobDataMapBuilder.LengtheningNeverSettles | quartzdesk-executor-core/src/main/java/com/quartzdesk/executor/core/JobDataMapBuilder.java:144-148 | when every pass makes the value one character longer, no iterate repeats, so the loop settles for no fuel |
| JobDataMapBuilder.SelfReferenceNeverSettles | quartzdesk-executor-core/src/main/java/com/quartzdesk/executor/core/JobDataMapBuilder.java:144-148 | build on the self-referencing entry does not settle for any fuel, so the source loop runs forever |
| MacroExpander.NewExpander | quartzdesk-executor-common/src/main/java/com/quartzdesk/executor/common/text/MacroExpander.java:84-92 | the constructor fails exactly when the macro start character is Java white space; otherwise the expander keeps the start character and the macros |
| MacroExpander.DefaultExpander | quartzdesk-executor-common/src/main/java/com/quartzdesk/executor/common/text/MacroExpander.java:59-62 | the default expander uses '$' |
| MacroExpander.Format | quartzdesk-executor-common/src/main/java/com/quartzdesk/executor/common/text/MacroExpander.java:210-258 | Calendar and Date values use the pattern or the default date pattern; a Number uses its pattern, or toString when the pattern is blank; any other value uses toString |
| MacroExpander.Substitute | quartzdesk-executor-common/src/main/java/com/quartzdesk/executor/common/text/MacroExpander.java:141-182 | the text before the macro is kept, and the remaining unscanned length decreases |
| MacroExpander.ExpandFrom | quartzdesk-executor-common/src/main/java/com/quartzdesk/executor/common/text/MacroExpander.java:126-186 | no opening sequence from the start index leaves the value unchanged; the result is an error exactly when the start character is '}' and an opening exists (index out of bounds) |
| MacroExpander.ExpandFromStep | quartzdesk-executor-common/src/main/java/com/quartzdesk/executor/common/text/MacroExpander.java:132-186 | expansion at an opening continues right after the substituted text |
| MacroExpander.ExpandKeepsPrefix | quartzdesk-executor-common/src/main/java/com/quartzdesk/executor/common/text/MacroExpander.java:126-186 | the text before the first opening from the start index is never changed |
| MacroExpander.ExpandWithoutClosingBrace | quartzdesk-executor-common/src/main/java/com/quartzdesk/executor/common/text/MacroExpander.java:137-139 | an opening with no closing '}' stops expansion, leaving the rest as it is |
| MacroExpander.ExpandMacros | quartzdesk-executor-common/src/main/java/com/quartzdesk/executor/common/text/MacroExpander.java:112-115 | null gives null; the result is a string whenever the start character is not '}'; a value with no opening is unchanged |
| MacroExpander.MacroPosition | quartzdesk-executor-common/src/main/java/com/quartzdesk/executor/common/text/MacroExpander.java:132-139 | in prefix + "${" + body + "}" + suffix, with no opening in the prefix and no '}' in the body, the macro is found at the prefix's end |
| MacroExpander.FirstOpeningAt | quartzdesk-executor-common/src/main/java/com/quartzdesk/executor/common/text/MacroExpander.java:132-134 | that opening is the first one from the start index |
| MacroExpander.NoOpeningAfter | quartzdesk-executor-common/src/main/java/com/quartzdesk/executor/common/text/MacroExpander.java:132-134 | a suffix without the start character has no opening |
| MacroExpander.WithMacroLayout | quartzdesk-executor-common/src/main/java/com/quartzdesk/executor/common/text/MacroExpander.java:132-141 | the positions of the opening and the closing brace in that layout |
| MacroExpander.ExpandLaidOutKnown | quartzdesk-executor-common/src/main/java/com/quartzdesk/executor/common/text/MacroExpander.java:147-182 | a known macro in that layout is replaced by its rendered value, and a null value gives "" |
| MacroExpander.ExpandLaidOutUnknown | quartzdesk-executor-common/src/main/java/com/quartzdesk/executor/common/text/MacroExpander.java:170-174 | an unknown macro in that layout leaves the whole value unchanged |
| MacroExpander.ExpandKnownMacro | quartzdesk-executor-common/src/main/java/com/quartzdesk/executor/common/text/MacroExpander.java:147-182 | prefix + "${name}" + suffix, with a known name and no macro start in prefix or suffix, expands to prefix + the rendered value (with its pattern) + suffix |
| MacroExpander.ExpandUnknownMacro | quartzdesk-executor-common/src/main/java/com/quartzdesk/executor/common/text/MacroExpander.java:170-174 | prefix + "${name}" + suffix, with an unknown name and no other macro start, is returned unchanged |
| MacroExpander.InsertedTextNotRescanned | quartzdesk-executor-common/src/main/java/com/quartzdesk/executor/common/text/MacroExpander.java:176-182 | a macro whose value renders as the macro text itself expands to that text: inserted text is not expanded again in the same pass |
| Version.Create | quartzdesk-executor-common/src/main/java/com/quartzdesk/executor/common/type/Version.java:55-70 | succeeds exactly when major, minor and maintenance are all non-negative, keeping the four values; a negative major, or else a negative minor, fails with the source's message |
| Version.ParseVersion | quartzdesk-executor-common/src/main/java/com/quartzdesk/executor/common/type/Version.java:81-115 | the parse succeeds exactly when the text splits on '.' and '-' into 3 or 4 pieces whose first three are ints (Integer.parseInt); the version then holds those three numbers and, with 4 pieces, the fourth as qualifier; every failure, a NumberFormatException included, carries the illegal-format message naming the input |
| Version.ParseVersionWellFormed | quartzdesk-executor-common/src/main/java/com/quartzdesk/executor/common/type/Version.java:81-115 | a parsed version has non-negative numbers and a non-empty qualifier without '.' or '-' |
| Version.ParseIntOfPieceNonNegative | quartzdesk-executor-common/src/main/java/com/quartzdesk/executor/common/type/Version.java:93-112 | a number parsed from a piece that passes the check is non-negative |
| Version.SplitOfPrinted | quartzdesk-executor-common/src/main/java/com/quartzdesk/executor/common/type/Version.java:218-231 | splitting a printed version on '.' and '-' gives its three number texts and its qualifier |
| Version.PiecesOfPrintedTail | quartzdesk-executor-common/src/main/java/com/quartzdesk/executor/common/type/Version.java:218-231 | the printed maintenance number and qualifier split into exactly those pieces |
| Version.NatToStringHasNoSeparator | quartzdesk-executor-common/src/main/java/com/quartzdesk/executor/common/type/Version.java:218-231 | a printed number contains no '.' or '-' |
| Version.ParseToString | quartzdesk-executor-common/src/main/java/com/quartzdesk/executor/common/type/Version.java:81-115 | round trip: parsing the printed form of a well-formed version gives the version back |
| Version.Equals | quartzdesk-executor-common/src/main/java/com/quartzdesk/executor/common/type/Version.java:161-174 | true exactly when all four components are equal |
| Version.CompareTo | quartzdesk-executor-common/src/main/java/com/quartzdesk/executor/common/type/Version.java:192-212 | zero exactly when equals holds; a smaller major gives -1; when the numbers differ the result is -1 or 1 |
| Version.CompareToAntisymmetric | quartzdesk-executor-common/src/main/java/com/quartzdesk/executor/common/type/Version.java:192-212 | swapping the versions flips the sign |
| Version.CompareToTransitive | quartzdesk-executor-common/src/main/java/com/quartzdesk/executor/common/type/Version.java:192-212 | the version order is transitive |
| Version.ReleaseBelowQualified | quartzdesk-executor-common/src/main/java/com/quartzdesk/executor/common/type/Version.java:192-212 | a release without qualifier sorts before the same numbers with a qualifier |
| VersionComparator.IntegerCompareTo | quartzdesk-executor-domain/src/main/java/com/quartzdesk/executor/domain/convert/VersionComparator.java:72-89 | negative exactly when the first value is smaller, positive exactly when it is larger |
| VersionComparator.SafeCompareIntegers | quartzdesk-executor-domain/src/main/java/com/quartzdesk/executor/domain/convert/VersionComparator.java:72-89 | zero exactly for equal values; negative exactly when the first is null and the second is not, or both are present and the first is smaller |
| VersionComparator.Compare | quartzdesk-executor-domain/src/main/java/com/quartzdesk/executor/domain/convert/VersionComparator.java:31-54 | zero exactly for equal versions; a difference in a number component decides with -1 or 1; the qualifier decides by the raw string comparison |
| VersionComparator.CompareReflexive | quartzdesk-executor-domain/src/main/java/com/quartzdesk/executor/domain/convert/VersionComparator.java:31-54 | every version compares equal to itself |
| VersionComparator.CompareAntisymmetric | quartzdesk-executor-domain/src/main/java/com/quartzdesk/executor/domain/convert/VersionComparator.java:31-54 | swapping the arguments negates the result, and so its sign |
| VersionComparator.CompareTransitive | quartzdesk-executor-domain/src/main/java/com/quartzdesk/executor/domain/convert/VersionComparator.java:31-54 | the comparator is transitive |
| VersionComparator.NullComponentSortsFirst | quartzdesk-executor-domain/src/main/java/com/quartzdesk/executor/domain/convert/VersionComparator.java:72-89 | a version with a null major sorts before one with a major, in both argument orders |
| VersionComparator.ReleaseBelowQualified | quartzdesk-executor-domain/src/main/java/com/quartzdesk/executor/domain/convert/VersionComparator.java:31-54 | a version without qualifier sorts before the same numbers with one |
| VersionConverter.FromString | quartzdesk-executor-domain/src/main/java/com/quartzdesk/executor/domain/convert/VersionConverter.java:24-57 | null gives null; otherwise the conversion succeeds exactly when there is at least one piece and each of the first (up to) three pieces is an int; the major, and the minor and maintenance when there are at least 2 and 3 pieces, are those ints; the qualifier is the fourth piece exactly when there are 4; every failure carries the illegal-format message |
| VersionConverter.ToString | quartzdesk-executor-domain/src/main/java/com/quartzdesk/executor/domain/convert/VersionConverter.java:60-78 | null exactly for a null version |
| VersionConverter.FromStringToString | quartzdesk-executor-domain/src/main/java/com/quartzdesk/executor/domain/convert/VersionConverter.java:24-78 | round trip: a version with all three numbers present and non-negative, and a parsable qualifier, converts back from its printed form |
| VersionConverter.SinglePieceSetsMajorOnly | quartzdesk-executor-domain/src/main/java/com/quartzdesk/executor/domain/convert/VersionConverter.java:39-46 | "7" converts to major 7 with minor, maintenance and qualifier null |
| VersionConverter.OnlySeparatorsRejected | quartzdesk-executor-domain/src/main/java/com/quartzdesk/executor/domain/convert/VersionConverter.java:31-35 | "..." has no piece and fails with the illegal-format message |
| TimestampWithTZ.DaysToMillisExact | quartzdesk-executor-common/src/main/java/com/quartzdesk/executor/common/type/TimestampWithTZ.java:274-277 | while days * 86400 fits in an int, the day shift in milliseconds is exact |
| TimestampWithTZ.DaysToMillisWraps | quartzdesk-executor-common/src/main/java/com/quartzdesk/executor/common/type/TimestampWithTZ.java:274-277 | 24856 days shift by -2147408896000 ms, because days * 24, * 60 and * 60 are computed in 32 bits |
| TimestampWithTZ.TimestampWithTZ.constructor | quartzdesk-executor-common/src/main/java/com/quartzdesk/executor/common/type/TimestampWithTZ.java:66-70 | the timestamp holds the given millis and zone |
| TimestampWithTZ.TimestampWithTZ.AddMilliseconds | quartzdesk-executor-common/src/main/java/com/quartzdesk/executor/common/type/TimestampWithTZ.java:224-228 | the instant moves by the amount in 64-bit arithmetic, exactly when no overflow happens; the zone is unchanged and the method returns this |
| TimestampWithTZ.TimestampWithTZ.AddSeconds | quartzdesk-executor-common/src/main/java/com/quartzdesk/executor/common/type/TimestampWithTZ.java:237-241 | the instant moves by seconds * 1000 in 64-bit arithmetic; the zone is unchanged and the method returns this |
| TimestampWithTZ.TimestampWithTZ.AddMinutes | quartzdesk-executor-common/src/main/java/com/quartzdesk/executor/common/type/TimestampWithTZ.java:250-253 | minutes * 60 is computed in 32 bits and then added as seconds; exact when nothing overflows |
| TimestampWithTZ.TimestampWithTZ.AddHours | quartzdesk-executor-common/src/main/java/com/quartzdesk/executor/common/type/TimestampWithTZ.java:262-265 | hours * 60 and then * 60 are computed in 32 bits and then added as seconds; exact when nothing overflows |
| TimestampWithTZ.TimestampWithTZ.AddDays | quartzdesk-executor-common/src/main/java/com/quartzdesk/executor/common/type/TimestampWithTZ.java:274-277 | the instant moves by the day shift, computed through the 32-bit products of addHours and addMinutes |
| TimestampWithTZ.TimestampWithTZ.CompareTo | quartzdesk-executor-common/src/main/java/com/quartzdesk/executor/common/type/TimestampWithTZ.java:206-215 | -1, 0 or 1, negative exactly when this instant is earlier and zero exactly when the instants are equal |
| TimestampWithTZ.TimestampWithTZ.Clone | quartzdesk-executor-common/src/main/java/com/quartzdesk/executor/common/type/TimestampWithTZ.java:183-195 | a fresh object with the same instant and zone, which equals the original in both directions |
| TimestampWithTZ.EqualsAgreesWithCompareTo | quartzdesk-executor-common/src/main/java/com/quartzdesk/executor/common/type/TimestampWithTZ.java:206-215 | equal timestamps compare as 0, and timestamps with the same instant and zone are equal |
| StopWatch.StopWatch.constructor | quartzdesk-executor-common/src/main/java/com/quartzdesk/executor/common/debug/StopWatch.java:30-33 | both the start and the finish time are 0 |
| StopWatch.StopWatch.Start | quartzdesk-executor-common/src/main/java/com/quartzdesk/executor/common/debug/StopWatch.java:40-45 | the start time is the clock reading, the finish time is 0, and the method returns this |
| StopWatch.StopWatch.Stop | quartzdesk-executor-common/src/main/java/com/quartzdesk/executor/common/debug/StopWatch.java:52-58 | a watch that was never started fails with "not started" and keeps its times; otherwise the finish time is the clock reading and the method returns this |
| StopWatch.StopWatch.GetElapsedTime | quartzdesk-executor-common/src/main/java/com/quartzdesk/executor/common/debug/StopWatch.java:66-75 | "not started" exactly when the start time is 0, "not stopped" exactly when started but not finished; otherwise the finish minus the start with 64-bit wrap-around, exact when it fits |
| StopWatch.StopWatch.GetFormattedElapsedTime | quartzdesk-executor-common/src/main/java/com/quartzdesk/executor/common/debug/StopWatch.java:82-86 | the same two errors; otherwise the duration text that the as-written formatDuration gives for the elapsed time, which is the exact days/hours/minutes/seconds/milliseconds text when the elapsed time is below 2^31 ms |
| StopWatch.Measure | quartzdesk-executor-common/src/main/java/com/quartzdesk/executor/common/debug/StopWatch.java:40-75 | start at t0 then stop at t1 gives t1 - t0; a zero clock reading gives the source's errors |
| StopWatch.NeverStarted | quartzdesk-executor-common/src/main/java/com/quartzdesk/executor/common/debug/StopWatch.java:52-58 | stop and getElapsedTime on a fresh watch both fail with "not started" |
| UTF8Map.TrailingBackslashes | quartzdesk-executor-common/src/main/java/com/quartzdesk/executor/common/text/UTF8Map.java:258-265 | the length of the run of backslashes ending the line: every character in it is a backslash, and the one before it is not |
| UTF8Map.TrailingBackslashesConcat | quartzdesk-executor-common/src/main/java/com/quartzdesk/executor/common/text/UTF8Map.java:258-265 | the trailing run of a concatenation is the second part's run, plus the first part's run when the second part is all backslashes |
| UTF8Map.ContinueLine | quartzdesk-executor-common/src/main/java/com/quartzdesk/executor/common/text/UTF8Map.java:258-265 | a line continues exactly when it ends with an odd number of backslashes |
| UTF8Map.HexRead | quartzdesk-executor-common/src/main/java/com/quartzdesk/executor/common/text/UTF8Map.java:286-325 | reading succeeds exactly when the requested number of hex digits follow; four digits give a value below 0x10000; a failure is never a surrogate error |
| UTF8Map.HexDigitChar | quartzdesk-executor-common/src/main/java/com/quartzdesk/executor/common/text/UTF8Map.java:293-325 | the digit printed for a value below 16 is a hex digit that reads back as that value |
| UTF8Map.EscapedChar | quartzdesk-executor-common/src/main/java/com/quartzdesk/executor/common/text/UTF8Map.java:329-344 | \t, \r, \n and \f stand for tab, carriage return, newline and form feed; any other escaped character stands for itself |
| UTF8Map.Unescape | quartzdesk-executor-common/src/main/java/com/quartzdesk/executor/common/text/UTF8Map.java:275-347 | a decoded text is never longer than the input, and a text without backslashes decodes to itself |
| UTF8Map.UnescapeEscape | quartzdesk-executor-common/src/main/java/com/quartzdesk/executor/common/text/UTF8Map.java:275-347 | round trip: decoding the escaped form of any string gives it back |
| UTF8Map.DanglingBackslash | quartzdesk-executor-common/src/main/java/com/quartzdesk/executor/common/text/UTF8Map.java:275-347 | "a\" reads past the end of the buffer, an index-out-of-bounds error |
| UTF8Map.UnicodeEscapeEitherCase | quartzdesk-executor-common/src/main/java/com/quartzdesk/executor/common/text/UTF8Map.java:293-325 | "é" and "é" both decode to the single character U+00E9 |
| UTF8Map.BadUnicodeEscapes | quartzdesk-executor-common/src/main/java/com/quartzdesk/executor/common/text/UTF8Map.java:286-325 | "\u12G4" is a malformed \uxxxx encoding, and "\u12" reads past the end of the buffer |
| UTF8Map.UnescapeLoneUnicode | quartzdesk-executor-common/src/main/java/com/quartzdesk/executor/common/text/UTF8Map.java:286-327 | a six-character escape naming a non-surrogate code unit decodes to that one character |
| UTF8Map.LeadingWhiteSpace | quartzdesk-executor-common/src/main/java/com/quartzdesk/executor/common/text/UTF8Map.java:196-202 | the length of the leading run of white-space characters (space, tab, CR, LF, form feed): all white space, and the next character is not |
| UTF8Map.SkipWhiteSpace | quartzdesk-executor-common/src/main/java/com/quartzdesk/executor/common/text/UTF8Map.java:196-202 | the loop stops at the first non-white-space character from the start index |
| UTF8Map.SeparatorOffset | quartzdesk-executor-common/src/main/java/com/quartzdesk/executor/common/text/UTF8Map.java:209-217 | where the separator scan stops, at most one past the end of the text |
| UTF8Map.SeparatorFound | quartzdesk-executor-common/src/main/java/com/quartzdesk/executor/common/text/UTF8Map.java:209-217 | the scan stops at a separator ('=', ':', tab, CR, LF or form feed) when it stops inside the text, and every separator before it is escaped by a backslash |
| UTF8Map.FindSeparator | quartzdesk-executor-common/src/main/java/com/quartzdesk/executor/common/text/UTF8Map.java:209-217 | the scan loop stops where SeparatorOffset says: at the first unescaped separator, or one past the end |
| UTF8Map.ValueOffset | quartzdesk-executor-common/src/main/java/com/quartzdesk/executor/common/text/UTF8Map.java:219-236 | the value starts within the rest of the line, after white space, one '=' or ':', and more white space |
| UTF8Map.FindValue | quartzdesk-executor-common/src/main/java/com/quartzdesk/executor/common/text/UTF8Map.java:219-236 | the loop stops where ValueOffset says the value begins |
| UTF8Map.ParseLineBlank | quartzdesk-executor-common/src/main/java/com/quartzdesk/executor/common/text/UTF8Map.java:196-206 | a logical line yields no entry exactly when it is all white space |
| UTF8Map.SplitLine | quartzdesk-executor-common/src/main/java/com/quartzdesk/executor/common/text/UTF8Map.java:237-243 | a line with a key always yields an entry or an error, never nothing |
| UTF8Map.ConvertEntry | quartzdesk-executor-common/src/main/java/com/quartzdesk/executor/common/text/UTF8Map.java:241-242 | the entry exists exactly when both key and value decode, and is then the decoded pair; a key that fails to decode gives its own error |
| UTF8Map.KeyFailsFirst | quartzdesk-executor-common/src/main/java/com/quartzdesk/executor/common/text/UTF8Map.java:237-242 | a line whose trimmed key fails to decode gives the key's error, whatever the value |
| UTF8Map.ParseKeyValue | quartzdesk-executor-common/src/main/java/com/quartzdesk/executor/common/text/UTF8Map.java:196-243 | the in-place parsing of a logical line gives exactly the entry, nothing, or the error that ParseLine specifies |
| UTF8Map.LoadConvert | quartzdesk-executor-common/src/main/java/com/quartzdesk/executor/common/text/UTF8Map.java:275-347 | the decoding loop gives exactly the Unescape result, so a text is never lengthened and a text without backslashes comes back unchanged |
| UTF8Map.ReadHex | quartzdesk-executor-common/src/main/java/com/quartzdesk/executor/common/text/UTF8Map.java:286-325 | the loop reads four hex digits exactly as HexRead does, so it fails on a missing or non-hex digit and otherwise yields a value below 0x10000 |
| UTF8Map.StripLeadingWhiteSpace | quartzdesk-executor-common/src/main/java/com/quartzdesk/executor/common/text/UTF8Map.java:180-193 | the next physical line from its first non-white-space character on |
| UTF8Map.LoppedLineEnds | quartzdesk-executor-common/src/main/java/com/quartzdesk/executor/common/text/UTF8Map.java:180-193 | dropping the last backslash of a continuing line leaves a line that does not continue |
| UTF8Map.JoinContinued | quartzdesk-executor-common/src/main/java/com/quartzdesk/executor/common/text/UTF8Map.java:180-193 | the logical line does not continue; it uses up some of the following lines, and the rest is what follows them; a line that does not continue is taken as it is |
| UTF8Map.JoinLines | quartzdesk-executor-common/src/main/java/com/quartzdesk/executor/common/text/UTF8Map.java:180-193 | the loop consumes exactly the physical lines that JoinContinued consumes and gives the same logical line, which does not continue |
| UTF8Map.ContinuedLineJoins | quartzdesk-executor-common/src/main/java/com/quartzdesk/executor/common/text/UTF8Map.java:180-193 | "a\" followed by a line of indentation and "c" joins to "ac" |
| UTF8Map.OneMoreBackslash | quartzdesk-executor-common/src/main/java/com/quartzdesk/executor/common/text/UTF8Map.java:258-265 | a single added backslash makes a plain line continue |
| UTF8Map.PlainEndDoesNotContinue | quartzdesk-executor-common/src/main/java/com/quartzdesk/executor/common/text/UTF8Map.java:258-265 | a line not ending in a backslash does not continue |
| UTF8Map.LoadLines | quartzdesk-executor-common/src/main/java/com/quartzdesk/executor/common/text/UTF8Map.java:160-247 | loading lines into a map keeps every key already there |
| UTF8Map.SkippedLineAddsNothing | quartzdesk-executor-common/src/main/java/com/quartzdesk/executor/common/text/UTF8Map.java:174-178 | comment lines and blank lines add nothing |
| UTF8Map.LaterLineOverwrites | quartzdesk-executor-common/src/main/java/com/quartzdesk/executor/common/text/UTF8Map.java:243 | of two stored lines with the same key, the later value wins |
| UTF8Map.StoreLineParses | quartzdesk-executor-common/src/main/java/com/quartzdesk/executor/common/text/UTF8Map.java:196-243 | round trip: the line key=value with key and value escaped parses back to exactly (key, value) |
| UTF8Map.LoadStoredLines | quartzdesk-executor-common/src/main/java/com/quartzdesk/executor/common/text/UTF8Map.java:160-247 | round trip: loading the stored lines of a list of pairs puts the pairs into the map in order, without an error |
| UTF8Map.SpaceIsNotSeparator | quartzdesk-executor-common/src/main/java/com/quartzdesk/executor/common/text/UTF8Map.java:209-238 | "a b" gives the key "a b" and an empty value, because a plain space does not separate |
| UTF8Map.EscapedSpaceSeparator | quartzdesk-executor-common/src/main/java/com/quartzdesk/executor/common/text/UTF8Map.java:209-217 | in "a\ =b" the escaped space is skipped and the separator is the '=' |
| UTF8Map.EscapedSpaceTrimmed | quartzdesk-executor-common/src/main/java/com/quartzdesk/executor/common/text/UTF8Map.java:237 | trimming the key "a\ " drops the escaped space and leaves a trailing backslash |
| UTF8Map.EscapedTrailingSpaceReadsPastEnd | quartzdesk-executor-common/src/main/java/com/quartzdesk/executor/common/text/UTF8Map.java:237-242 | so "a\ =b" fails with an index-out-of-bounds error |
| UTF8Map.UTF8Map.constructor | quartzdesk-executor-common/src/main/java/com/quartzdesk/executor/common/text/UTF8Map.java:40-42 | the map is empty |
| UTF8Map.UTF8Map.Load | quartzdesk-executor-common/src/main/java/com/quartzdesk/executor/common/text/UTF8Map.java:160-247 | the map is cleared first; afterwards its entries and the error are those of loading the lines into an empty map |
| DatabaseScriptExecutor.KeptLines | quartzdesk-executor-common/src/main/java/com/quartzdesk/executor/common/db/DatabaseScriptExecutor.java:287-311 | the kept lines are those that are not blank and are either not comments or are block markers, in order, so never more than the lines read |
| DatabaseScriptExecutor.JoinLinesSplitsBack | quartzdesk-executor-common/src/main/java/com/quartzdesk/executor/common/db/DatabaseScriptExecutor.java:287-311 | round trip: lines without '\n', joined with '\n', split back on '\n' into the same lines |
| DatabaseScriptExecutor.MaybeAddSeparator | quartzdesk-executor-common/src/main/java/com/quartzdesk/executor/common/db/DatabaseScriptExecutor.java:322-339 | the script is either unchanged or, with a separator set, has the part of the separator after its trimmed text appended |
| DatabaseScriptExecutor.SeparatorTailCondition | quartzdesk-executor-common/src/main/java/com/quartzdesk/executor/common/db/DatabaseScriptExecutor.java:322-339 | the lastIndexOf test holds exactly when the script ends with the trimmed separator, or the trimmed separator is one longer than the script |
| DatabaseScriptExecutor.ReadLine | quartzdesk-executor-common/src/main/java/com/quartzdesk/executor/common/db/DatabaseScriptExecutor.java:287-311 | one pass of the read loop: the builder stays the '\n'-join of the lines kept so far, all non-empty |
| DatabaseScriptExecutor.ReadLines | quartzdesk-executor-common/src/main/java/com/quartzdesk/executor/common/db/DatabaseScriptExecutor.java:287-311 | the read loop builds the '\n'-join of the kept lines |
| DatabaseScriptExecutor.AppendLine | quartzdesk-executor-common/src/main/java/com/quartzdesk/executor/common/db/DatabaseScriptExecutor.java:293-297 | a line is appended, preceded by '\n' unless the builder is empty |
| DatabaseScriptExecutor.KeptLinesSnoc | quartzdesk-executor-common/src/main/java/com/quartzdesk/executor/common/db/DatabaseScriptExecutor.java:287-311 | the kept lines of one more line are the earlier kept lines plus that line when it is kept |
| DatabaseScriptExecutor.JoinLinesSnoc | quartzdesk-executor-common/src/main/java/com/quartzdesk/executor/common/db/DatabaseScriptExecutor.java:287-311 | joining one more line adds '\n' and the line, or is the line alone when nothing came before |
| DatabaseScriptExecutor.JoinLinesEmpty | quartzdesk-executor-common/src/main/java/com/quartzdesk/executor/common/db/DatabaseScriptExecutor.java:287-311 | the join of non-empty lines is empty exactly when there is no line |
| DatabaseScriptExecutor.ScriptExecutor.ReadScript | quartzdesk-executor-common/src/main/java/com/quartzdesk/executor/common/db/DatabaseScriptExecutor.java:276-319 | the script is the '\n'-join of the kept lines, with the separator handling applied |
| DatabaseScriptExecutor.QuoteCount | quartzdesk-executor-common/src/main/java/com/quartzdesk/executor/common/db/DatabaseScriptExecutor.java:348-364 | the number of single quotes counted, at most the length |
| DatabaseScriptExecutor.ContainsSqlScriptDelimiters | quartzdesk-executor-common/src/main/java/com/quartzdesk/executor/common/db/DatabaseScriptExecutor.java:348-364 | true exactly when the delimiter starts at a position where the single quotes up to and including it are balanced |
| DatabaseScriptExecutor.Delimiter | quartzdesk-executor-common/src/main/java/com/quartzdesk/executor/common/db/DatabaseScriptExecutor.java:205-213 | the configured separator when one is set; otherwise ";" exactly when the script holds an unquoted ';', and "\n" otherwise |
| DatabaseScriptExecutor.Step | quartzdesk-executor-common/src/main/java/com/quartzdesk/executor/common/db/DatabaseScriptExecutor.java:393-479 | one pass of the loop body stays within the script, and moves forward by at least one character when the delimiter is non-empty |
| DatabaseScriptExecutor.EmptyDelimiterSpins | quartzdesk-executor-common/src/main/java/com/quartzdesk/executor/common/db/DatabaseScriptExecutor.java:419-429 | with an empty delimiter, the pass over an unquoted character outside a block that is neither a quote nor a backslash leaves the index where it was, and the next pass leaves the state unchanged: the loop never ends |
| DatabaseScriptExecutor.Finish | quartzdesk-executor-common/src/main/java/com/quartzdesk/executor/common/db/DatabaseScriptExecutor.java:481-485 | after the loop, the text still in the builder becomes a last statement only when it is not blank |
| DatabaseScriptExecutor.ScriptExecutor.SplitScript | quartzdesk-executor-common/src/main/java/com/quartzdesk/executor/common/db/DatabaseScriptExecutor.java:380-486 | the statements are those of the read script split by the chosen delimiter and the comment prefix |
| DatabaseScriptExecutor.SplitSqlScript | quartzdesk-executor-common/src/main/java/com/quartzdesk/executor/common/db/DatabaseScriptExecutor.java:380-486 | the loop computes the specified statements, and each statement is non-empty and does not start with a space, tab or newline |
| DatabaseScriptExecutor.StepWellFormed | quartzdesk-executor-common/src/main/java/com/quartzdesk/executor/common/db/DatabaseScriptExecutor.java:393-479 | one pass keeps every collected statement and the builder non-empty and free of a leading space, tab or newline |
| DatabaseScriptExecutor.ScanWellFormed | quartzdesk-executor-common/src/main/java/com/quartzdesk/executor/common/db/DatabaseScriptExecutor.java:380-486 | so every statement of the scan is non-empty and has no leading space, tab or newline |
| DatabaseScriptExecutor.StepCollapsed | quartzdesk-executor-common/src/main/java/com/quartzdesk/executor/common/db/DatabaseScriptExecutor.java:465-476 | in a script without quotes or backslashes, one pass leaves no tab, no newline and no two adjacent spaces in the statement being built |
| DatabaseScriptExecutor.ScanCollapsed | quartzdesk-executor-common/src/main/java/com/quartzdesk/executor/common/db/DatabaseScriptExecutor.java:465-476 | so no statement of such a scan holds a tab, a newline or two adjacent spaces |
| DatabaseScriptExecutor.SplitCollapsesWhitespace | quartzdesk-executor-common/src/main/java/com/quartzdesk/executor/common/db/DatabaseScriptExecutor.java:465-476 | the statements of a script without quotes or backslashes have their white space collapsed to single spaces |
| DatabaseScriptExecutor.StepDelimiterFree | quartzdesk-executor-common/src/main/java/com/quartzdesk/executor/common/db/DatabaseScriptExecutor.java:419-429 | in such a script without block-start markers, one pass never copies a one-character delimiter other than space into a statement |
| DatabaseScriptExecutor.ScanDelimiterFree | quartzdesk-executor-common/src/main/java/com/quartzdesk/executor/common/db/DatabaseScriptExecutor.java:419-429 | so no statement of such a scan contains the delimiter |
| DatabaseScriptExecutor.SplitDropsDelimiter | quartzdesk-executor-common/src/main/java/com/quartzdesk/executor/common/db/DatabaseScriptExecutor.java:419-429 | the statements of such a script never contain the delimiter |
| DatabaseScriptExecutor.EscapedCharacterVerbatim | quartzdesk-executor-common/src/main/java/com/quartzdesk/executor/common/db/DatabaseScriptExecutor.java:396-408 | a backslash and the character after it are copied into the statement as they are |
| DatabaseScriptExecutor.LiteralCopiedVerbatim | quartzdesk-executor-common/src/main/java/com/quartzdesk/executor/common/db/DatabaseScriptExecutor.java:411-414 | inside a quoted literal, every character other than a quote or backslash is copied as it is |
| DatabaseScriptExecutor.DelimiterEndsStatement | quartzdesk-executor-common/src/main/java/com/quartzdesk/executor/common/db/DatabaseScriptExecutor.java:419-429 | an unquoted delimiter outside a block ends the statement (kept when non-empty), empties the builder and is skipped |
| DatabaseScriptExecutor.DelimiterInBlockCopied | quartzdesk-executor-common/src/main/java/com/quartzdesk/executor/common/db/DatabaseScriptExecutor.java:419-429 | inside a block opened by the `-- [statement]` marker and not yet closed by `-- [/statement]`, the delimiter is copied into the statement |
| DatabaseScriptExecutor.CommentSkippedToEndOfLine | quartzdesk-executor-common/src/main/java/com/quartzdesk/executor/common/db/DatabaseScriptExecutor.java:430-463 | a comment that is not a block marker is skipped up to and including its newline |
| DatabaseScriptExecutor.CommentWithoutNewlineEndsScan | quartzdesk-executor-common/src/main/java/com/quartzdesk/executor/common/db/DatabaseScriptExecutor.java:452-462 | a comment with no newline after it ends the scan |
| DatabaseScriptExecutor.MarkersDiffer | quartzdesk-executor-common/src/main/java/com/quartzdesk/executor/common/db/DatabaseScriptExecutor.java:433-449 | no position starts both a block-start and a block-end marker |
| DatabaseScriptExecutor.BlockMarkers | quartzdesk-executor-common/src/main/java/com/quartzdesk/executor/common/db/DatabaseScriptExecutor.java:433-449 | a block-start marker enters a block, and a block-end marker leaves it and ends the statement |
| DatabaseScriptExecutor.MarkerStartsWithPrefix | quartzdesk-executor-common/src/main/java/com/quartzdesk/executor/common/db/DatabaseScriptExecutor.java:279-280 | a line starting with a block marker starts with the comment prefix |
| DatabaseScriptExecutor.DropTestAsWrittenNeverHolds | quartzdesk-executor-common/src/main/java/com/quartzdesk/executor/common/db/DatabaseScriptExecutor.java:234 | the drop test as written is false for every statement: an upper-cased, trimmed statement never starts with lower-case "drop" |
| DatabaseScriptExecutor.FailedDropNotIgnoredAsWritten | quartzdesk-executor-common/src/main/java/com/quartzdesk/executor/common/db/DatabaseScriptExecutor.java:232-245 | a failing statement starting with "DROP" is not tolerated as written with ignoreFailedDrops set and continueOnError unset, while the corrected test tolerates it |
| DatabaseScriptExecutor.UpperKeepsDrop | quartzdesk-executor-common/src/main/java/com/quartzdesk/executor/common/db/DatabaseScriptExecutor.java:234 | upper-casing keeps a "DROP" prefix |
| DatabaseScriptExecutor.TrimKeepsUntrimmedEnds | quartzdesk-executor-common/src/main/java/com/quartzdesk/executor/common/db/DatabaseScriptExecutor.java:234 | trim leaves a string unchanged when neither end is white space |
| DatabaseScriptExecutor.DropStatementIgnoresCase | quartzdesk-executor-common/src/main/java/com/quartzdesk/executor/common/db/DatabaseScriptExecutor.java:234-235 | the corrected drop test holds exactly when the trimmed statement starts with the four letters d, r, o, p, each in either case |
| DatabaseScriptExecutor.FirstFatal | quartzdesk-executor-common/src/main/java/com/quartzdesk/executor/common/db/DatabaseScriptExecutor.java:222-248 | for a given tolerance test, the index of the first statement that fails, given the statements sent before it, and is not tolerated; None when there is no such statement |
| DatabaseScriptExecutor.FirstFatalStep | quartzdesk-executor-common/src/main/java/com/quartzdesk/executor/common/db/DatabaseScriptExecutor.java:222-248 | after a statement that succeeds or is tolerated, the first fatal statement of the rest, shifted by one, is that of the whole |
| DatabaseScriptExecutor.IgnoreFailedDropsHasNoEffect | quartzdesk-executor-common/src/main/java/com/quartzdesk/executor/common/db/DatabaseScriptExecutor.java:232-246 | with the drop test as written, the first fatal statement is the same whether ignoreFailedDrops is set or not |
| DatabaseScriptExecutor.FailedDropStopsScript | quartzdesk-executor-common/src/main/java/com/quartzdesk/executor/common/db/DatabaseScriptExecutor.java:232-246 | a rejected "DROP ..." statement is fatal as written with ignoreFailedDrops set and continueOnError clear, and not fatal under the intended test |
| DatabaseScriptExecutor.FirstFatalNone | quartzdesk-executor-common/src/main/java/com/quartzdesk/executor/common/db/DatabaseScriptExecutor.java:222-248 | no statement is fatal exactly when every statement is accepted, given those before it, or tolerated |
| DatabaseScriptExecutor.FirstFatalAppend | quartzdesk-executor-common/src/main/java/com/quartzdesk/executor/common/db/DatabaseScriptExecutor.java:222-248 | two batches sent one after the other have no fatal statement exactly when neither batch has one |
| DatabaseScriptExecutor.FatalAt | quartzdesk-executor-common/src/main/java/com/quartzdesk/executor/common/db/DatabaseScriptExecutor.java:223-247 | a statement reached before the first fatal one is that one exactly when it fails and is not tolerated |
| DatabaseScriptExecutor.ShiftedHistory | quartzdesk-executor-common/src/main/java/com/quartzdesk/executor/common/db/DatabaseScriptExecutor.java:222-248 | the history seen by each later statement is the earlier history plus the statements before it |
| DatabaseScriptExecutor.Message | quartzdesk-executor-common/src/main/java/com/quartzdesk/executor/common/db/DatabaseScriptExecutor.java:243-245 | the source's exception texts: "Error reading SQL script: " and the URL, and "Failed to execute SQL statement #n of SQL script url: statement" |
| DatabaseScriptExecutor.MessageNamesScript | quartzdesk-executor-common/src/main/java/com/quartzdesk/executor/common/db/DatabaseScriptExecutor.java:203-245 | the read-failure and statement-failure messages start with different words, and each holds the script URL right after its fixed lead-in |
| DatabaseScriptExecutor.Connection.constructor | quartzdesk-executor-common/src/main/java/com/quartzdesk/executor/common/db/DatabaseScriptExecutor.java:188 | no statement sent and no commit |
| DatabaseScriptExecutor.Connection.Execute | quartzdesk-executor-common/src/main/java/com/quartzdesk/executor/common/db/DatabaseScriptExecutor.java:228 | the statement is added to those sent, and it succeeds exactly when the oracle accepts it after the earlier ones |
| DatabaseScriptExecutor.Connection.Commit | quartzdesk-executor-common/src/main/java/com/quartzdesk/executor/common/db/DatabaseScriptExecutor.java:259 | the commit count grows by one |
| DatabaseScriptExecutor.ScriptExecutor.RunStatement | quartzdesk-executor-common/src/main/java/com/quartzdesk/executor/common/db/DatabaseScriptExecutor.java:226-247 | the statement is sent, and it is fatal exactly when the connection rejects it and the as-written tolerance test does not hold |
| DatabaseScriptExecutor.ScriptExecutor.RunStatements | quartzdesk-executor-common/src/main/java/com/quartzdesk/executor/common/db/DatabaseScriptExecutor.java:222-248 | with the tolerance test as written (continueOnError, or the drop test that never matches): every statement is sent when none is fatal; otherwise statements are sent up to and including the first fatal one, which is reported with its 1-based number and text |
| DatabaseScriptExecutor.ScriptExecutor.ExecuteScript | quartzdesk-executor-common/src/main/java/com/quartzdesk/executor/common/db/DatabaseScriptExecutor.java:188-266 | the result and the statements sent are those of the specified run of one script with the as-written tolerance test (a read failure sends nothing and names the URL; otherwise statements up to the first fatal one); a commit follows a read script when commitAfterScript is set, even after a failed statement |
| DatabaseScriptExecutor.AllStatements | quartzdesk-executor-common/src/main/java/com/quartzdesk/executor/common/db/DatabaseScriptExecutor.java:169-176 | the statements of all scripts in order; None exactly when some script cannot be read |
| DatabaseScriptExecutor.AllStatementsSnoc | quartzdesk-executor-common/src/main/java/com/quartzdesk/executor/common/db/DatabaseScriptExecutor.java:169-176 | one more readable script appends its statements |
| DatabaseScriptExecutor.RunScript | quartzdesk-executor-common/src/main/java/com/quartzdesk/executor/common/db/DatabaseScriptExecutor.java:188-266 | the run of one script fails with an error naming that script, and reads it exactly when it can be read |
| DatabaseScriptExecutor.RunReadScript | quartzdesk-executor-common/src/main/java/com/quartzdesk/executor/common/db/DatabaseScriptExecutor.java:205-248 | a readable script is read, succeeds and sends all its statements when none is fatal, and otherwise fails at the first fatal one, numbered from 1, having sent it and those before it |
| DatabaseScriptExecutor.RunScripts | quartzdesk-executor-common/src/main/java/com/quartzdesk/executor/common/db/DatabaseScriptExecutor.java:169-176 | the run of a script list reads at most every script, and all of them when it succeeds |
| DatabaseScriptExecutor.RunScriptsSnoc | quartzdesk-executor-common/src/main/java/com/quartzdesk/executor/common/db/DatabaseScriptExecutor.java:169-176 | after a successful prefix, one more script extends the run by that script's run |
| DatabaseScriptExecutor.NextScriptRun | quartzdesk-executor-common/src/main/java/com/quartzdesk/executor/common/db/DatabaseScriptExecutor.java:169-176 | after a successful prefix, the next script either extends it or ends the whole run with its failure |
| DatabaseScriptExecutor.RunErrorPersists | quartzdesk-executor-common/src/main/java/com/quartzdesk/executor/common/db/DatabaseScriptExecutor.java:169-176 | once a prefix of the scripts has failed, the run of the whole list is that failed run: no later script runs |
| DatabaseScriptExecutor.RunScriptsSucceeds | quartzdesk-executor-common/src/main/java/com/quartzdesk/executor/common/db/DatabaseScriptExecutor.java:169-176 | a run succeeds exactly when every script can be read and no statement of all of them, sent in order, is fatal; it has then sent every statement and read every script |
| DatabaseScriptExecutor.RunScriptsFails | quartzdesk-executor-common/src/main/java/com/quartzdesk/executor/common/db/DatabaseScriptExecutor.java:169-176 | a failed run fails on one script, all scripts before it succeed, and the run's error names that script |
| DatabaseScriptExecutor.FailingScript | quartzdesk-executor-common/src/main/java/com/quartzdesk/executor/common/db/DatabaseScriptExecutor.java:169-176 | the index of that script |
| DatabaseScriptExecutor.FailsAtExtends | quartzdesk-executor-common/src/main/java/com/quartzdesk/executor/common/db/DatabaseScriptExecutor.java:169-176 | a failure of the first scripts is the failure of the whole list |
| DatabaseScriptExecutor.ScriptExecutor.ExecuteScripts | quartzdesk-executor-common/src/main/java/com/quartzdesk/executor/common/db/DatabaseScriptExecutor.java:169-176 | the result and the statements sent are exactly those of the specified run of the script list, which stops at the first failing script; one commit per script read when commitAfterScript is set |
| DatabaseScriptExecutor.ScriptExecutor.ExecuteNextScript | quartzdesk-executor-common/src/main/java/com/quartzdesk/executor/common/db/DatabaseScriptExecutor.java:171-175 | one turn of the loop: success extends the successful prefix of the run and commits once when commitAfterScript is set; failure ends with the whole run's result and statements |
| DatabaseScriptExecutor.ScriptExecutor.constructor | quartzdesk-executor-common/src/main/java/com/quartzdesk/executor/common/db/DatabaseScriptExecutor.java:41-69 | no scripts, encoding UTF-8, no separator, comment prefix "--", and continueOnError, ignoreFailedDrops and commitAfterScript all false |
| DatabaseScriptExecutor.ScriptExecutor.AddScriptUrl | quartzdesk-executor-common/src/main/java/com/quartzdesk/executor/common/db/DatabaseScriptExecutor.java:77-80 | the URL is appended to the script list |
| DatabaseScriptExecutor.ScriptExecutor.AddScriptUrls | quartzdesk-executor-common/src/main/java/com/quartzdesk/executor/common/db/DatabaseScriptExecutor.java:88-91 | the URLs are appended in order |
| DatabaseScriptExecutor.ScriptExecutor.SetSqlScriptEncoding | quartzdesk-executor-common/src/main/java/com/quartzdesk/executor/common/db/DatabaseScriptExecutor.java:99-102 | the encoding is set; the frame leaves every other field unchanged |
| DatabaseScriptExecutor.ScriptExecutor.SetSeparator | quartzdesk-executor-common/src/main/java/com/quartzdesk/executor/common/db/DatabaseScriptExecutor.java:108-111 | the separator is set; the frame leaves every other field unchanged |
| DatabaseScriptExecutor.ScriptExecutor.SetCommentPrefix | quartzdesk-executor-common/src/main/java/com/quartzdesk/executor/common/db/DatabaseScriptExecutor.java:118-121 | the comment prefix is set; the frame leaves every other field unchanged |
| DatabaseScriptExecutor.ScriptExecutor.SetContinueOnError | quartzdesk-executor-common/src/main/java/com/quartzdesk/executor/common/db/DatabaseScriptExecutor.java:130-133 | the flag is set; the frame leaves every other field unchanged |
| DatabaseScriptExecutor.ScriptExecutor.SetIgnoreFailedDrops | quartzdesk-executor-common/src/main/java/com/quartzdesk/executor/common/db/DatabaseScriptExecutor.java:144-147 | the flag is set; the frame leaves every other field unchanged |
| DatabaseScriptExecutor.ScriptExecutor.SetCommitAfterScript | quartzdesk-executor-common/src/main/java/com/quartzdesk/executor/common/db/DatabaseScriptExecutor.java:157-160 | the flag is set; the frame leaves every other field unchanged |
| DatabaseSchemaDao.GetInt | quartzdesk-executor-dao/src/main/java/com/quartzdesk/executor/dao/schema/DatabaseSchemaDao.java:67-69 | a present integer is read as it is, and SQL NULL reads as 0, as ResultSet.getInt does |
| DatabaseSchemaDao.ReadRow | quartzdesk-executor-dao/src/main/java/com/quartzdesk/executor/dao/schema/DatabaseSchemaDao.java:64-72 | the id is kept, and the three version numbers are always present after reading; a row with all numbers present is read unchanged |
| DatabaseSchemaDao.QueryRows | quartzdesk-executor-dao/src/main/java/com/quartzdesk/executor/dao/schema/DatabaseSchemaDao.java:58-74 | for rows stored in ascending id order, the query returns each row read once, in reverse, so in descending id order |
| DatabaseSchemaDao.SchemaDao.constructor | quartzdesk-executor-dao/src/main/java/com/quartzdesk/executor/dao/schema/DatabaseSchemaDao.java:25-34 | the database behind the DAO: the given connection, whether the history table exists, its rows in ascending id order and the next id to assign |
| DatabaseSchemaDao.SchemaDao.GetSchemaUpdates | quartzdesk-executor-dao/src/main/java/com/quartzdesk/executor/dao/schema/DatabaseSchemaDao.java:58-74 | as many updates as stored rows, in descending id order, and exactly the stored rows as read |
| DatabaseSchemaDao.SchemaDao.GetLatestSchemaUpdate | quartzdesk-executor-dao/src/main/java/com/quartzdesk/executor/dao/schema/DatabaseSchemaDao.java:86-105 | None exactly when the table is missing or has no row; otherwise the last stored row as read, whose id is the greatest |
| DatabaseSchemaDao.SchemaDao.InsertSchemaUpdate | quartzdesk-executor-dao/src/main/java/com/quartzdesk/executor/dao/schema/DatabaseSchemaDao.java:114-118 | appends one row with the given numbers and the next id, returns that id, and the table then exists |
| DatabaseSchemaDao.SchemaDao.InitializeOrUpgradeSchema | quartzdesk-executor-dao/src/main/java/com/quartzdesk/executor/dao/schema/DatabaseSchemaDao.java:128-145 | the result and the statements sent are exactly those of the run of the scripts by a default executor (no separator, "--" comments, stop on the first failure, no commits); on success the table exists and one row with the version's three numbers is appended (the qualifier is not stored); on failure the rows, the next id and the table flag are unchanged |
| DatabaseSchemaManager.SortPaths | quartzdesk-executor-dao/src/main/java/com/quartzdesk/executor/dao/schema/DatabaseSchemaManager.java:238-245 | the result is sorted by String.compareTo and is a permutation of the input |
| DatabaseSchemaManager.InsertPath | quartzdesk-executor-dao/src/main/java/com/quartzdesk/executor/dao/schema/DatabaseSchemaManager.java:238-245 | inserting into a sorted list keeps it sorted and adds exactly that path |
| DatabaseSchemaManager.SortedPermutationsEqual | quartzdesk-executor-dao/src/main/java/com/quartzdesk/executor/dao/schema/DatabaseSchemaManager.java:238-245 | two sorted permutations of the same paths are equal, so the sorted order is unique |
| DatabaseSchemaManager.FirstPathLowest | quartzdesk-executor-dao/src/main/java/com/quartzdesk/executor/dao/schema/DatabaseSchemaManager.java:238-245 | the first path of a sorted list is at most every path in it |
| DatabaseSchemaManager.SortedTail | quartzdesk-executor-dao/src/main/java/com/quartzdesk/executor/dao/schema/DatabaseSchemaManager.java:238-245 | the tail of a sorted list is sorted |
| DatabaseSchemaManager.SameFirstPath | quartzdesk-executor-dao/src/main/java/com/quartzdesk/executor/dao/schema/DatabaseSchemaManager.java:238-245 | two sorted permutations of the same paths start with the same path |
| DatabaseSchemaManager.PrependSorted | quartzdesk-executor-dao/src/main/java/com/quartzdesk/executor/dao/schema/DatabaseSchemaManager.java:238-245 | a path at most every element of a sorted list keeps the list sorted in front of it |
| DatabaseSchemaManager.BelowFirstPath | quartzdesk-executor-dao/src/main/java/com/quartzdesk/executor/dao/schema/DatabaseSchemaManager.java:238-245 | a path at most the first element of a sorted list is at most all of them |
| DatabaseSchemaManager.FirstBelowTail | quartzdesk-executor-dao/src/main/java/com/quartzdesk/executor/dao/schema/DatabaseSchemaManager.java:238-245 | the first element of a sorted list is at most its tail |
| DatabaseSchemaManager.BelowInserted | quartzdesk-executor-dao/src/main/java/com/quartzdesk/executor/dao/schema/DatabaseSchemaManager.java:238-245 | a path at most every element of a list and at most the inserted path is at most every element of the result |
| DatabaseSchemaManager.TailMultiset | quartzdesk-executor-dao/src/main/java/com/quartzdesk/executor/dao/schema/DatabaseSchemaManager.java:238-245 | removing the first of equal multisets leaves equal multisets |
| DatabaseSchemaManager.InitScriptUrls | quartzdesk-executor-dao/src/main/java/com/quartzdesk/executor/dao/schema/DatabaseSchemaManager.java:223-253 | an error exactly when the listing fails; otherwise the listed scripts sorted by path, as a permutation of the listing |
| DatabaseSchemaManager.CollectUrls | quartzdesk-executor-dao/src/main/java/com/quartzdesk/executor/dao/schema/DatabaseSchemaManager.java:231-235 | the loop copies the listed resources' URLs in order |
| DatabaseSchemaManager.SchemaManager.GetInitScriptUrls | quartzdesk-executor-dao/src/main/java/com/quartzdesk/executor/dao/schema/DatabaseSchemaManager.java:223-253 | the method returns the init script URLs as specified |
| DatabaseSchemaManager.DigitsEnd | quartzdesk-executor-dao/src/main/java/com/quartzdesk/executor/dao/schema/DatabaseSchemaManager.java:49 | the end of the maximal run of digits starting at a position |
| DatabaseSchemaManager.DigitsEndUnique | quartzdesk-executor-dao/src/main/java/com/quartzdesk/executor/dao/schema/DatabaseSchemaManager.java:49 | any end of a digit run followed by a non-digit or the end is that end |
| DatabaseSchemaManager.MatchAt | quartzdesk-executor-dao/src/main/java/com/quartzdesk/executor/dao/schema/DatabaseSchemaManager.java:275-290 | the pattern /D_D_D/.+\.sql$ matches at a position exactly when the path has the shape '/', digits, '_', digits, '_', digits, '/', at least one more character, and ends in ".sql"; the result gives the three separator positions |
| DatabaseSchemaManager.FindMatch | quartzdesk-executor-dao/src/main/java/com/quartzdesk/executor/dao/schema/DatabaseSchemaManager.java:275-290 | the leftmost position from the start where that pattern matches, or none when it matches nowhere |
| DatabaseSchemaManager.SplitOfTriple | quartzdesk-executor-dao/src/main/java/com/quartzdesk/executor/dao/schema/DatabaseSchemaManager.java:280-286 | splitting "x_y_z" on '_' gives the three pieces when none holds '_' |
| DatabaseSchemaManager.SplitOfGroup | quartzdesk-executor-dao/src/main/java/com/quartzdesk/executor/dao/schema/DatabaseSchemaManager.java:280-286 | the matched group splits on '_' into exactly its three digit runs |
| DatabaseSchemaManager.VersionOfGroup | quartzdesk-executor-dao/src/main/java/com/quartzdesk/executor/dao/schema/DatabaseSchemaManager.java:280-286 | a group of three digit runs parses into a version with three non-negative numbers and no qualifier |
| DatabaseSchemaManager.DirVersionOfPath | quartzdesk-executor-dao/src/main/java/com/quartzdesk/executor/dao/schema/DatabaseSchemaManager.java:275-290 | a path where the pattern matches nowhere (a script named just ".sql" included, see EmptyScriptNameSkipped) names no directory; a parsed directory version has three numbers and no qualifier |
| DatabaseSchemaManager.NoMatchInRoot | quartzdesk-executor-dao/src/main/java/com/quartzdesk/executor/dao/schema/DatabaseSchemaManager.java:275-290 | a root without '_' holds no match before the '/' that follows it |
| DatabaseSchemaManager.NoMatchAfterGroup | quartzdesk-executor-dao/src/main/java/com/quartzdesk/executor/dao/schema/DatabaseSchemaManager.java:49 | when only ".sql" follows the `x_y_z/` group, no match starts at or after its first digit |
| DatabaseSchemaManager.NoMatchWithEmptyName | quartzdesk-executor-dao/src/main/java/com/quartzdesk/executor/dao/schema/DatabaseSchemaManager.java:49 | a path root/x_y_z/.sql with a root free of '_' has no match anywhere |
| DatabaseSchemaManager.EmptyScriptNameSkipped | quartzdesk-executor-dao/src/main/java/com/quartzdesk/executor/dao/schema/DatabaseSchemaManager.java:275-290 | so such a path is skipped by the first loop: find() fails and no directory version is read, whatever its digit groups |
| DatabaseSchemaManager.DigitsAt | quartzdesk-executor-dao/src/main/java/com/quartzdesk/executor/dao/schema/DatabaseSchemaManager.java:275-290 | digits placed at a position form a digit run there |
| DatabaseSchemaManager.ScriptPathPieces | quartzdesk-executor-dao/src/main/java/com/quartzdesk/executor/dao/schema/DatabaseSchemaManager.java:298-299 | the separator positions of a script path root/x_y_z/name.sql |
| DatabaseSchemaManager.MatchAtScriptPath | quartzdesk-executor-dao/src/main/java/com/quartzdesk/executor/dao/schema/DatabaseSchemaManager.java:275-290 | the pattern matches at the '/' after the root, with the separators of x_y_z |
| DatabaseSchemaManager.MatchOfScriptPath | quartzdesk-executor-dao/src/main/java/com/quartzdesk/executor/dao/schema/DatabaseSchemaManager.java:275-290 | with a root without '_', that is the leftmost match |
| DatabaseSchemaManager.LeftmostMatch | quartzdesk-executor-dao/src/main/java/com/quartzdesk/executor/dao/schema/DatabaseSchemaManager.java:275-290 | a match with no match before it is the one found |
| DatabaseSchemaManager.DirVersionOfFoundPath | quartzdesk-executor-dao/src/main/java/com/quartzdesk/executor/dao/schema/DatabaseSchemaManager.java:275-290 | the directory version of a path is read from the group of its leftmost match |
| DatabaseSchemaManager.VersionOfDirName | quartzdesk-executor-dao/src/main/java/com/quartzdesk/executor/dao/schema/DatabaseSchemaManager.java:298-299 | the directory name printed for a version parses back to that version |
| DatabaseSchemaManager.ScriptPathNamesItsDirectory | quartzdesk-executor-dao/src/main/java/com/quartzdesk/executor/dao/schema/DatabaseSchemaManager.java:275-299 | round trip: the path root/a_b_c/name.sql names the version (a, b, c), for a root without '_' |
| DatabaseSchemaManager.DirVersionOfScriptPath | quartzdesk-executor-dao/src/main/java/com/quartzdesk/executor/dao/schema/DatabaseSchemaManager.java:275-290 | the path root/x_y_z/name.sql names the version parsed from x_y_z |
| DatabaseSchemaManager.GroupOfScriptPath | quartzdesk-executor-dao/src/main/java/com/quartzdesk/executor/dao/schema/DatabaseSchemaManager.java:275-290 | the text between the root and the file name is x_y_z |
| DatabaseSchemaManager.DirVersionOfGroupAt | quartzdesk-executor-dao/src/main/java/com/quartzdesk/executor/dao/schema/DatabaseSchemaManager.java:280-286 | the version named by a path is that of the group at its leftmost match |
| DatabaseSchemaManager.ScriptPathOfGroup | quartzdesk-executor-dao/src/main/java/com/quartzdesk/executor/dao/schema/DatabaseSchemaManager.java:298-299 | the script path is root + "/" + the group + "/" + name + ".sql" |
| DatabaseSchemaManager.CompareStrictTransitive | quartzdesk-executor-dao/src/main/java/com/quartzdesk/executor/dao/schema/DatabaseSchemaManager.java:270 | the comparator's strict order is transitive, as the TreeSet needs |
| DatabaseSchemaManager.AddBelowFirst | quartzdesk-executor-dao/src/main/java/com/quartzdesk/executor/dao/schema/DatabaseSchemaManager.java:270-288 | a version below the first of an ascending list is new and can go in front of it |
| DatabaseSchemaManager.AddAfterFirst | quartzdesk-executor-dao/src/main/java/com/quartzdesk/executor/dao/schema/DatabaseSchemaManager.java:270-288 | a version above the first of an ascending list keeps the first in front of the rest with the version added |
| DatabaseSchemaManager.TreeSetAdd | quartzdesk-executor-dao/src/main/java/com/quartzdesk/executor/dao/schema/DatabaseSchemaManager.java:270-288 | the set stays strictly ascending, holds exactly the old versions and the added one, and adding a present version changes nothing |
| DatabaseSchemaManager.DirVersionsOfPaths | quartzdesk-executor-dao/src/main/java/com/quartzdesk/executor/dao/schema/DatabaseSchemaManager.java:275-290 | the directory version (or error) of each listed path, in order |
| DatabaseSchemaManager.CollectDirVersions | quartzdesk-executor-dao/src/main/java/com/quartzdesk/executor/dao/schema/DatabaseSchemaManager.java:270-290 | on success the directory versions are strictly ascending and each has three numbers and no qualifier |
| DatabaseSchemaManager.FillDirVersions | quartzdesk-executor-dao/src/main/java/com/quartzdesk/executor/dao/schema/DatabaseSchemaManager.java:275-290 | the loop computes the collected directory versions of the listed paths |
| DatabaseSchemaManager.CollectStep | quartzdesk-executor-dao/src/main/java/com/quartzdesk/executor/dao/schema/DatabaseSchemaManager.java:275-290 | one loop step: an error stops with that error, a path naming no directory adds nothing, and a directory version is added to the set |
| DatabaseSchemaManager.CollectErrorPersists | quartzdesk-executor-dao/src/main/java/com/quartzdesk/executor/dao/schema/DatabaseSchemaManager.java:280-286 | once a path fails to parse, the whole collection fails with that error |
| DatabaseSchemaManager.CollectFailsOnBadPath | quartzdesk-executor-dao/src/main/java/com/quartzdesk/executor/dao/schema/DatabaseSchemaManager.java:275-290 | the collection succeeds exactly when every path parses |
| DatabaseSchemaManager.NamedBySnoc | quartzdesk-executor-dao/src/main/java/com/quartzdesk/executor/dao/schema/DatabaseSchemaManager.java:275-290 | a version is named by the paths exactly when an earlier path or the last path names it |
| DatabaseSchemaManager.CollectedDirectories | quartzdesk-executor-dao/src/main/java/com/quartzdesk/executor/dao/schema/DatabaseSchemaManager.java:275-290 | the collected set holds exactly the versions the paths name |
| DatabaseSchemaManager.AppendSelectedScripts | quartzdesk-executor-dao/src/main/java/com/quartzdesk/executor/dao/schema/DatabaseSchemaManager.java:292-321 | the selection loop computes the scripts of the selected directories in order, each directory's scripts sorted |
| DatabaseSchemaManager.ScriptsErrorPersists | quartzdesk-executor-dao/src/main/java/com/quartzdesk/executor/dao/schema/DatabaseSchemaManager.java:323-326 | once a directory listing fails, the whole selection fails with that error |
| DatabaseSchemaManager.ScriptsFromSelectedDirs | quartzdesk-executor-dao/src/main/java/com/quartzdesk/executor/dao/schema/DatabaseSchemaManager.java:292-321 | every selected URL is in the listing of a directory whose version lies in (current, desired] |
| DatabaseSchemaManager.SelectedDirsComplete | quartzdesk-executor-dao/src/main/java/com/quartzdesk/executor/dao/schema/DatabaseSchemaManager.java:292-321 | every script listed for such a directory is selected |
| DatabaseSchemaManager.UpgradeScriptUrls | quartzdesk-executor-dao/src/main/java/com/quartzdesk/executor/dao/schema/DatabaseSchemaManager.java:264-329 | a failing listing of the upgrade root is a DAO error with the source's message |
| DatabaseSchemaManager.UpgradeScriptsSelection | quartzdesk-executor-dao/src/main/java/com/quartzdesk/executor/dao/schema/DatabaseSchemaManager.java:295-296 | on success the directories are strictly ascending, and a URL is selected exactly when it is listed for a directory whose version lies in (current, desired] |
| DatabaseSchemaManager.SchemaManager.GetUpgradeScriptUrls | quartzdesk-executor-dao/src/main/java/com/quartzdesk/executor/dao/schema/DatabaseSchemaManager.java:264-329 | the method returns the upgrade script URLs as specified |
| DatabaseSchemaManager.CheckSchemaVersion | quartzdesk-executor-dao/src/main/java/com/quartzdesk/executor/dao/schema/DatabaseSchemaManager.java:197-215 | accepted exactly when the current version compares at most the desired one; otherwise a downgrade error naming both versions |
| DatabaseSchemaManager.PlanDecisions | quartzdesk-executor-dao/src/main/java/com/quartzdesk/executor/dao/schema/DatabaseSchemaManager.java:95-188 | no history initializes with the init scripts or fails with their error; a newer current version is refused as a downgrade; up to date exactly when the current version equals the desired one; an upgrade happens only from a lower version, is formal exactly when no upgrade script is selected, and otherwise runs exactly the selected scripts |
| DatabaseSchemaManager.RerunIsUpToDate | quartzdesk-executor-dao/src/main/java/com/quartzdesk/executor/dao/schema/DatabaseSchemaManager.java:95-188 | once the latest row records the desired numbers, without qualifier, the next run finds the schema up to date |
| DatabaseSchemaManager.SchemaManager.constructor | quartzdesk-executor-dao/src/main/java/com/quartzdesk/executor/dao/schema/DatabaseSchemaManager.java:60-87 | the manager holds the given product version, DAO and script roots |
| DatabaseSchemaManager.SchemaManager.SetProductVersion | quartzdesk-executor-dao/src/main/java/com/quartzdesk/executor/dao/schema/DatabaseSchemaManager.java:66-69 | the product version is set; the frame leaves every other field unchanged |
| DatabaseSchemaManager.SchemaManager.SetDatabaseSchemaDao | quartzdesk-executor-dao/src/main/java/com/quartzdesk/executor/dao/schema/DatabaseSchemaManager.java:72-75 | the DAO is set; the frame leaves every other field unchanged |
| DatabaseSchemaManager.SchemaManager.SetInitScriptsRoot | quartzdesk-executor-dao/src/main/java/com/quartzdesk/executor/dao/schema/DatabaseSchemaManager.java:78-81 | the init scripts root is set; the frame leaves every other field unchanged |
| DatabaseSchemaManager.SchemaManager.SetUpgradeScriptsRoot | quartzdesk-executor-dao/src/main/java/com/quartzdesk/executor/dao/schema/DatabaseSchemaManager.java:84-87 | the upgrade scripts root is set; the frame leaves every other field unchanged |
| DatabaseSchemaManager.SchemaManager.MaybeInitializeOrUpgradeDatabaseSchema | quartzdesk-executor-dao/src/main/java/com/quartzdesk/executor/dao/schema/DatabaseSchemaManager.java:95-188 | the run carries out the planned decision: a refusal or up to date changes nothing, a formal upgrade adds the row and sends nothing, an initialization or upgrade sends the statements of the scripts' run and adds the row exactly when that run succeeds, failing with the run's error otherwise; on failure the history is unchanged; nothing is committed by the manager; on success the latest row records the desired version |
| DatabaseSchemaManager.SchemaManager.InitializeSchema | quartzdesk-executor-dao/src/main/java/com/quartzdesk/executor/dao/schema/DatabaseSchemaManager.java:112-127 | with no history, the init scripts run; the desired version is recorded exactly when their run succeeds, and a failure carries the run's error and leaves the history unchanged |
| DatabaseSchemaManager.SchemaManager.UpgradeSchema | quartzdesk-executor-dao/src/main/java/com/quartzdesk/executor/dao/schema/DatabaseSchemaManager.java:150-183 | from the latest row, a refusal, up to date, a formal upgrade, or the selected upgrade scripts run; the desired version is recorded exactly when that run succeeds, and an error leaves the history unchanged |
| DatabaseSchemaManager.SchemaManager.ApplyUpgrade | quartzdesk-executor-dao/src/main/java/com/quartzdesk/executor/dao/schema/DatabaseSchemaManager.java:172-183 | an empty script list records the version as a formal upgrade and sends nothing; otherwise the scripts run through the DAO, which records the version exactly when their run succeeds and reports the run's error otherwise |
| DatabaseSchemaManager.AppliedScripts | quartzdesk-executor-dao/src/main/java/com/quartzdesk/executor/dao/schema/DatabaseSchemaManager.java:112-127 | an initialization or upgrade succeeds exactly when every script can be read and no statement of them is fatal; it has then sent every statement and added the desired row, and otherwise it fails with a script error and adds no row |
| Jdk.Split | quartzdesk-executor-common/src/main/java/com/quartzdesk/executor/common/type/Version.java:85 | String.split with a literal separator: the pieces between separators, with trailing empty pieces dropped |
| Jdk.Trim | quartzdesk-executor-common/src/main/java/com/quartzdesk/executor/common/text/StringUtils.java:33 | String.trim removes every leading and trailing character at most U+0020 and keeps the rest |
| Jdk.CompareToAntisymmetric | quartzdesk-executor-dao/src/main/java/com/quartzdesk/executor/dao/schema/DatabaseSchemaManager.java:238-245 | String.compareTo flips sign when its arguments are swapped |
| Jdk.CompareToTransitive | quartzdesk-executor-dao/src/main/java/com/quartzdesk/executor/dao/schema/DatabaseSchemaManager.java:238-245 | String.compareTo is transitive |

## Left out

- Reading lines from a stream (`LineNumberReader`, `BufferedReader.readLine`), `URL.openStream` and character decoding are I/O. Scripts and properties files are given as lists of lines. The SQL script encoding is stored but plays no part.
- The classpath listing done by `PathMatchingResourcePatternResolver` is a parameter function from pattern to paths, where `None` stands for an `IOException`.
- `UTF8Map`: the constructors that load from a classpath resource, a `File`, an `InputStream` or a `Reader`, and `load(InputStream)`, are left out. They only open a reader and call `load(Reader)`, which is modelled. The map is not concurrent.
- `UTF8Map.LoadConvert`: a `\uXXXX` escape that names a UTF-16 surrogate cannot be represented, because Dafny characters are Unicode scalar values. It is modelled as an error, whereas Java would produce the lone surrogate.
- Java strings are UTF-16 and Dafny strings are sequences of scalar values. `toUpperCase` and `equalsIgnoreCase` are modelled on ASCII letters only.
- `setTransactionManager` is left out, and so is the transaction around schema changes. The model does not capture rollback of statements that were already sent. The schema history is unchanged on failure because the row is inserted only after the scripts succeed.
- DatabaseScriptExecutor.ScriptExecutor.SetCommentPrefix: the comment prefix is a string, never null. With a null prefix the source keeps no line at all, and the model does not cover that case.
- Logging is left out, and so is `dumpScriptList`. The `StopWatch` timing inside `executeScript` is logging only.
- `Statement` creation and `DbUtils.close` are left out. A connection is modelled by the statements sent and the commits made.
- `DatabaseSchemaDao.getSchemaUpdate(Long)` is left out, since no core path uses it. Each stored row's applied-at timestamp comes from the clock and is not stored.
- `MacroExpander`: the locale-dependent `SimpleDateFormat`/`DecimalFormat` rendering is a formatter function parameter. An invalid pattern's `IllegalArgumentException` is left out, and so is `getMacros`.
- `JobDataMapBuilder`: the macros that come from the Quartz context, the clock, the scheduler's JMX name and reflection are given as a map of context macros. `getMacros` and `getSchedulerObjectName` are left out.
- JobDataMapBuilder.Build: the repeat-until-seen loop carries a fuel bound, and running out of fuel is `None`. The source loop does not terminate for a value that refers to itself with extra text, as SelfReferenceNeverSettles shows.
- JobDataMapBuilder.ExpandUntilRepeat: the same fuel bound, for the same reason.
- DateTimeUtils.FormatDuration: stated for non-negative durations only. The day count is printed without the locale's grouping separators, which `{0,number}` would insert for 1000 days or more.
- DateTimeUtils.FormatDurationSSmm: stated only for 0 <= duration < 2^31 ms, where its `(int)` cast is exact.
- DateTimeUtils.FormatTimeZoneOffset: the zone's offset at the current instant is given as a parameter, because it reads the clock.
- `DateTimeUtils.formatTimeZone(String)` looks up a zone by id in the JDK's zone database and is left out. `formatTimeZone(TimeZone)` is modelled.
- `StopWatch`: the clock is a `now` parameter.
- `TimestampWithTZ`: `addMonths`, `addYears`, `isAfter`, `isBefore`, `toString`, `toCalendar`, `toDate`, `hashCode`, the other constructors and the getters and setters are calendar-dependent or trivial, and are left out. `compareTo` goes through `Calendar` in the source and is modelled on the millisecond instants.
- `Version`: the setters and `hashCode` are left out.
- DatabaseScriptExecutor.SplitSqlScript: the delimiter must be non-empty, and so must the separator given to `ScriptExecutor.SetSeparator` before a run. With `setSeparator("")` the source loop matches the empty delimiter at an unquoted character, advances by `delim.length() - 1 + 1 == 0` and never ends (EmptyDelimiterSpins states this one pass); the model does not run that non-terminating case.
- DatabaseSchemaManager.MatchAt: script paths are taken to hold no line terminator. In Java the pattern's `.` does not match `\n`, `\r`, U+0085, U+2028 or U+2029, and `$` also matches before a final line terminator; the model's `.` matches every character and its `$` only the end of the path.
- Jdk.ParseInt: only the ASCII digits 0-9 count as digits. `Integer.parseInt` also accepts the other Unicode decimal digits that `Character.digit` knows, such as Arabic-Indic or full-width digits. This affects Version.ParseVersion and VersionConverter.FromString, which reject such version strings in the model.
- CommonUtils.GetRootCause: the `Throwable` datatype is a finite tree, so a cause chain cannot loop back on itself. The source `getRootCause` (the common and the core `CommonUtils`) loops forever on a cyclic chain; the model does not cover that case. CoreCommonUtils.GetRootCause has the same limitation.
- Jdk.CompareTo: strings are ordered by Unicode scalar value, whereas `String.compareTo` orders by UTF-16 code unit. The two orders differ only between a character above U+FFFF and one in U+E000-U+FFFF, so DatabaseSchemaManager.SortPaths can order paths holding such characters differently from the source.
- DatabaseSchemaManager.Plan: the test that the current version is the desired one is Dafny's structural equality of the two versions (major, minor, maintenance, qualifier). The source calls `Version.equals`, which is generated in the domain class and is not part of this model; the model assumes it compares those four fields.

## Findings

| source | as written | input that shows it | evidently intended | confidence | as-written member | corrected member |
|---|---|---|---|---|---|---|
| quartzdesk-executor-common/src/main/java/com/quartzdesk/executor/common/db/DatabaseScriptExecutor.java:234 | the statement is upper-cased and then checked for the lower-case prefix "drop", which never matches, so ignoreFailedDrops has no effect | "DROP TABLE T" fails, with ignoreFailedDrops = true and continueOnError = false: the script stops with an error | a failed DROP statement is tolerated when ignoreFailedDrops is set | not executed | DatabaseScriptExecutor.FailedDropStopsScript | DatabaseScriptExecutor.DropStatementIgnoresCase |
| quartzdesk-executor-common/src/main/java/com/quartzdesk/executor/common/DateTimeUtils.java:123-133 | every unit is computed from `(int) dur`, the duration cut to 32 bits | duration 2147483648 ms | "24 days 20:31:23.648" | not executed | DateTimeUtils.AsWrittenFailsAtIntRange | DateTimeUtils.FormatDuration |
