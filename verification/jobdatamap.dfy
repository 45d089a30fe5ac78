/**
 * `JobDataMapBuilder`: builds the job data map a local job sees, with the
 * macros of its String values expanded against the macros of the running
 * job (among them one `JOB_DATA_MAP[key]` macro per job data entry), and
 * the small case mappings that produce some of those macros.
 */
module JobDataMapBuilder {
  import opened Jdk
  import ME = MacroExpander

  const MACRO_JOB_DATA_MAP: string := "JOB_DATA_MAP"

  const EXEC_TYPE_NORMAL: string := "NORMAL"
  const EXEC_TYPE_QD_SYSTEM: string := "SYSTEM"
  const EXEC_TYPE_QD_MANUAL: string := "MANUAL"
  const EXEC_TYPE_QD_JOB_CHAIN: string := "JOB_CHAIN"
  const EXEC_TYPE_QD_WEB_SERVICE: string := "WEB_SERVICE"

  const TRIGGER_TYPE_SIMPLE: string := "SIMPLE"
  const TRIGGER_TYPE_CRON: string := "CRON"
  const TRIGGER_TYPE_CALENDAR_INTERVAL: string := "CALENDAR_INTERVAL"
  const TRIGGER_TYPE_DAILY_TIME_INTERVAL: string := "DAILY_TIME_INTERVAL"

  // ---------------------------------------------------------------------
  // Case mappings
  // ---------------------------------------------------------------------

  /** The trigger groups of QuartzDesk-initiated executions. */
  predicate IsQuartzDeskGroup(group: string)
  {
    group == "QD_MANUAL" || group == "QD_JOB_CHAIN" || group == "QD_SYSTEM" || group == "QD_WEB_SERVICE"
  }

  /** `getExecType`: the execution type named by the trigger group. */
  function ExecType(group: string): (r: string)
    ensures r == EXEC_TYPE_NORMAL <==> !IsQuartzDeskGroup(group)
    ensures IsQuartzDeskGroup(group) ==> "QD_" + r == group
  {
    if group == "QD_MANUAL" then EXEC_TYPE_QD_MANUAL
    else if group == "QD_JOB_CHAIN" then EXEC_TYPE_QD_JOB_CHAIN
    else if group == "QD_SYSTEM" then EXEC_TYPE_QD_SYSTEM
    else if group == "QD_WEB_SERVICE" then EXEC_TYPE_QD_WEB_SERVICE
    else EXEC_TYPE_NORMAL
  }

  /** Two QuartzDesk groups never share an execution type. */
  lemma ExecTypeInjective(a: string, b: string)
    requires IsQuartzDeskGroup(a) && IsQuartzDeskGroup(b) && ExecType(a) == ExecType(b)
    ensures a == b
  {
    assert "QD_" + ExecType(a) == a;
  }

  /** The kinds of Quartz trigger `getTriggerType` tells apart. */
  datatype TriggerKind = SimpleTrigger | CronTrigger | CalendarIntervalTrigger | DailyTimeIntervalTrigger | OtherTrigger

  /** `getTriggerType`: the type name of a known trigger kind, null for any other. */
  function TriggerType(kind: TriggerKind): (r: Option<string>)
    ensures r.None? <==> kind.OtherTrigger?
    ensures r.Some? ==> r.value in {TRIGGER_TYPE_SIMPLE, TRIGGER_TYPE_CRON, TRIGGER_TYPE_CALENDAR_INTERVAL, TRIGGER_TYPE_DAILY_TIME_INTERVAL}
  {
    match kind
    case SimpleTrigger => Some(TRIGGER_TYPE_SIMPLE)
    case CronTrigger => Some(TRIGGER_TYPE_CRON)
    case CalendarIntervalTrigger => Some(TRIGGER_TYPE_CALENDAR_INTERVAL)
    case DailyTimeIntervalTrigger => Some(TRIGGER_TYPE_DAILY_TIME_INTERVAL)
    case OtherTrigger => None
  }

  /** Distinct known trigger kinds have distinct type names. */
  lemma TriggerTypeInjective(a: TriggerKind, b: TriggerKind)
    requires TriggerType(a).Some? && TriggerType(a) == TriggerType(b)
    ensures a == b
  {
  }

  /**
   * `createJobExecutionId`: null without a fire instance id; otherwise the
   * fire instance id, followed by `@` and the scheduler object name when
   * there is one.
   */
  function CreateJobExecutionId(fireInstanceId: Option<string>, schedObjectName: Option<string>): (r: Option<string>)
    ensures r.None? <==> fireInstanceId.None?
    ensures r.Some? ==> |fireInstanceId.value| <= |r.value| && r.value[..|fireInstanceId.value|] == fireInstanceId.value
    ensures r.Some? && schedObjectName.None? ==> r.value == fireInstanceId.value
    ensures r.Some? && schedObjectName.Some? ==> r.value[|fireInstanceId.value|..] == "@" + schedObjectName.value
  {
    match fireInstanceId
    case None => None
    case Some(fire) =>
      var id := fire + (if schedObjectName.None? then "" else "@" + schedObjectName.value);
      assert id[..|fire|] == fire;
      Some(id)
  }

  /**
   * When the fire instance id holds no `@`, the execution id splits back
   * at its first `@` into the fire instance id and the scheduler name.
   */
  lemma JobExecutionIdSplits(fire: string, name: string)
    requires '@' !in fire
    ensures var id := CreateJobExecutionId(Some(fire), Some(name)).value;
            var at := IndexOfChar(id, '@', 0);
            at == |fire| && id[..at] == fire && id[at + 1..] == name
  {
    var id := CreateJobExecutionId(Some(fire), Some(name)).value;
    assert id == fire + "@" + name;
    assert id[|fire|] == '@';
    assert forall k :: 0 <= k < |fire| ==> id[k] == fire[k];
    assert id[|fire| + 1..] == name;
  }

  // ---------------------------------------------------------------------
  // The job data map macros
  // ---------------------------------------------------------------------

  /** The name of the macro that holds job data entry `key`: `JOB_DATA_MAP[key]`. */
  function JobDataMapMacroName(key: string): (name: string)
    ensures |name| == |MACRO_JOB_DATA_MAP| + |key| + 2
    ensures name[..|MACRO_JOB_DATA_MAP| + 1] == MACRO_JOB_DATA_MAP + "["
    ensures name[|MACRO_JOB_DATA_MAP| + 1..|name| - 1] == key
    ensures name[|name| - 1] == ']'
  {
    var name := MACRO_JOB_DATA_MAP + "[" + key + "]";
    assert name[|MACRO_JOB_DATA_MAP| + 1..|name| - 1] == key;
    name
  }

  /** The job data key a `JOB_DATA_MAP[key]` macro name stands for. */
  function JobDataMapKey(name: string): string
    requires |name| >= |MACRO_JOB_DATA_MAP| + 2
  {
    name[|MACRO_JOB_DATA_MAP| + 1..|name| - 1]
  }

  /** The key is recovered from its macro name, so different keys get different macro names. */
  lemma JobDataMapKeyOfName(key: string)
    ensures JobDataMapKey(JobDataMapMacroName(key)) == key
  {
  }

  /** One `JOB_DATA_MAP[key]` macro per job data entry, holding the entry's value. */
  function JobDataMapMacros(merged: map<string, ME.MacroValue>): (macros: map<string, ME.MacroValue>)
    ensures forall key :: key in merged ==> JobDataMapMacroName(key) in macros && macros[JobDataMapMacroName(key)] == merged[key]
    ensures forall name :: name in macros ==> exists key :: key in merged && name == JobDataMapMacroName(key)
  {
    forall key | key in merged
      ensures JobDataMapKey(JobDataMapMacroName(key)) == key
    {
      JobDataMapKeyOfName(key);
    }
    map key | key in merged :: JobDataMapMacroName(key) := merged[key]
  }

  /**
   * `createMacros`: the macros describing the running job (clock, scheduler,
   * job detail, trigger, execution), given here as `contextMacros`, followed
   * by the job data macros, which win on a clash of names.
   */
  function CreateMacros(contextMacros: map<string, ME.MacroValue>, merged: map<string, ME.MacroValue>): (macros: map<string, ME.MacroValue>)
    ensures forall key :: key in merged ==> JobDataMapMacroName(key) in macros && macros[JobDataMapMacroName(key)] == merged[key]
    ensures forall name :: name in contextMacros && name !in JobDataMapMacros(merged) ==> name in macros && macros[name] == contextMacros[name]
    ensures macros.Keys == contextMacros.Keys + JobDataMapMacros(merged).Keys
  {
    contextMacros + JobDataMapMacros(merged)
  }

  // ---------------------------------------------------------------------
  // Repeated expansion
  // ---------------------------------------------------------------------

  /** One `expandMacros` pass with the builder's expander (default start character), which cannot fail. */
  function Expand(macros: map<string, ME.MacroValue>, formatter: ME.PatternFormatter, s: string): (r: string)
    ensures ME.ExpandMacros(ME.DefaultExpander(macros), Some(s), formatter) == Ok(Some(r))
  {
    ME.ExpandMacros(ME.DefaultExpander(macros), Some(s), formatter).value.value
  }

  /** `Expand` with the macros and the formatter fixed: the pass `build` repeats. */
  function ExpandPass(macros: map<string, ME.MacroValue>, formatter: ME.PatternFormatter): (step: string -> string)
    ensures forall s :: step(s) == Expand(macros, formatter, s)
  {
    s => Expand(macros, formatter, s)
  }

  /** `n` passes of `step` over `v`. */
  function Iterate(step: string -> string, v: string, n: nat): string
  {
    if n == 0 then v else step(Iterate(step, v, n - 1))
  }

  /** The results of passes `1` to `n - 1`: what the loop has seen when it looks at pass `n`. */
  function Seen(step: string -> string, v: string, n: nat): set<string>
  {
    if n <= 1 then {} else Seen(step, v, n - 1) + {Iterate(step, v, n - 1)}
  }

  /** `Seen` holds exactly the results of passes `1` to `n - 1`. */
  lemma {:induction false} SeenIsEarlierPasses(step: string -> string, v: string, n: nat, x: string)
    ensures x in Seen(step, v, n) <==> exists m :: 1 <= m < n && x == Iterate(step, v, m)
  {
    if n > 1 {
      SeenIsEarlierPasses(step, v, n - 1, x);
      assert Seen(step, v, n) == Seen(step, v, n - 1) + {Iterate(step, v, n - 1)};
      if x == Iterate(step, v, n - 1) {
        assert 1 <= n - 1 < n && x == Iterate(step, v, n - 1);
        assert x in Seen(step, v, n);
        assert exists m :: 1 <= m < n && x == Iterate(step, v, m);
      } else if exists m :: 1 <= m < n && x == Iterate(step, v, m) {
        var m :| 1 <= m < n && x == Iterate(step, v, m);
        assert m < n - 1;
      }
    }
  }

  /**
   * The loop of `build` on one String value, from pass `n` on, with at most
   * `fuel` more passes: the first pass result that equals an earlier one is
   * the stored value; `None` when the fuel runs out first.
   */
  function SettleFrom(step: string -> string, v: string, n: nat, fuel: nat): Option<string>
    decreases fuel
  {
    var current := Iterate(step, v, n);
    if current in Seen(step, v, n) then Some(current)
    else if fuel == 0 then None
    else SettleFrom(step, v, n + 1, fuel - 1)
  }

  /**
   * The loop of `build` for one String value: keep a set of the values
   * seen and expand again while the latest value is new. The source loop
   * has no bound; here at most `fuel` passes follow the first one.
   */
  method ExpandUntilRepeat(step: string -> string, value: string, fuel: nat) returns (r: Option<string>)
    ensures r == SettleFrom(step, value, 1, fuel)
  {
    var expandedValues: set<string> := {};
    var expandedValue := step(value);
    ghost var n: nat := 1;
    var left := fuel;
    while expandedValue !in expandedValues
      invariant n >= 1
      invariant expandedValue == Iterate(step, value, n)
      invariant expandedValues == Seen(step, value, n)
      invariant SettleFrom(step, value, n, left) == SettleFrom(step, value, 1, fuel)
      decreases left
    {
      if left == 0 {
        return None;
      }
      expandedValues := expandedValues + {expandedValue};
      expandedValue := step(expandedValue);
      n := n + 1;
      left := left - 1;
    }
    return Some(expandedValue);
  }

  /** What the loop stores is a pass result that equals an earlier pass result. */
  lemma {:induction false} SettledValueRepeats(step: string -> string, v: string, n: nat, fuel: nat)
    requires n >= 1
    ensures var r := SettleFrom(step, v, n, fuel);
            r.Some? ==> exists m, k :: 1 <= m < k && r.value == Iterate(step, v, m) == Iterate(step, v, k)
    decreases fuel
  {
    var current := Iterate(step, v, n);
    if current in Seen(step, v, n) {
      SeenIsEarlierPasses(step, v, n, current);
    } else if fuel > 0 {
      SettledValueRepeats(step, v, n + 1, fuel - 1);
    }
  }

  /** When pass `k` repeats an earlier pass, enough fuel makes the loop stop. */
  lemma {:induction false} SettlesWhenRepeating(step: string -> string, v: string, n: nat, fuel: nat, m: nat, k: nat)
    requires 1 <= m < k && Iterate(step, v, m) == Iterate(step, v, k)
    requires 1 <= n <= k && n + fuel >= k
    ensures SettleFrom(step, v, n, fuel).Some?
    decreases fuel
  {
    var current := Iterate(step, v, n);
    if current !in Seen(step, v, n) {
      if n == k {
        SeenIsEarlierPasses(step, v, n, current);
        assert false;
      } else {
        SettlesWhenRepeating(step, v, n + 1, fuel - 1, m, k);
      }
    }
  }

  /** A value that a pass leaves unchanged is stored as it is. */
  lemma SettledFixedPoint(step: string -> string, v: string, fuel: nat)
    requires step(v) == v && fuel >= 1
    ensures SettleFrom(step, v, 1, fuel) == Some(v)
  {
    assert Iterate(step, v, 1) == v;
    assert Iterate(step, v, 2) == v;
  }

  // ---------------------------------------------------------------------
  // build
  // ---------------------------------------------------------------------

  /** What `build` stores for one job data value; `None` when its loop runs out of fuel. */
  function BuiltValue(macros: map<string, ME.MacroValue>, formatter: ME.PatternFormatter, value: ME.MacroValue, fuel: nat): Option<ME.MacroValue>
  {
    if value.StringValue? then
      match SettleFrom(ExpandPass(macros, formatter), value.s, 1, fuel)
      case Some(x) => Some(ME.StringValue(x))
      case None => None
    else Some(value)
  }

  /**
   * `build`: a new map with the same keys as the merged job data map; each
   * String value is expanded until a result repeats, every other value is
   * copied as it is. `None` when some String value runs out of fuel.
   */
  method Build(merged: map<string, ME.MacroValue>, macros: map<string, ME.MacroValue>, formatter: ME.PatternFormatter, fuel: nat)
    returns (r: Option<map<string, ME.MacroValue>>)
    ensures r.None? <==> exists key :: key in merged && BuiltValue(macros, formatter, merged[key], fuel).None?
    ensures r.Some? ==> r.value.Keys == merged.Keys
    ensures r.Some? ==> forall key :: key in merged ==> BuiltValue(macros, formatter, merged[key], fuel) == Some(r.value[key])
    ensures r.Some? ==> forall key :: key in merged && !merged[key].StringValue? ==> r.value[key] == merged[key]
  {
    var newJobDataMap: map<string, ME.MacroValue> := map[];
    var todo := merged.Keys;
    while todo != {}
      invariant todo <= merged.Keys
      invariant newJobDataMap.Keys == merged.Keys - todo
      invariant forall key :: key in newJobDataMap ==> BuiltValue(macros, formatter, merged[key], fuel) == Some(newJobDataMap[key])
      decreases todo
    {
      var key :| key in todo;
      var value := merged[key];
      if value.StringValue? {
        var expandedValue := ExpandUntilRepeat(ExpandPass(macros, formatter), value.s, fuel);
        if expandedValue.None? {
          return None;
        }
        newJobDataMap := newJobDataMap[key := ME.StringValue(expandedValue.value)];
      } else {
        newJobDataMap := newJobDataMap[key := value];
      }
      todo := todo - {key};
    }
    return Some(newJobDataMap);
  }

  // ---------------------------------------------------------------------
  // References to job data entries
  // ---------------------------------------------------------------------

  /** `${JOB_DATA_MAP[key]}`: a use of the job data macro of `key`. */
  function Reference(key: string): string
  {
    [ME.DEFAULT_START_CHAR, '{'] + JobDataMapMacroName(key) + "}"
  }

  /**
   * A job data macro name holds no `}` and is its own macro name: there is
   * no `,` to split at and nothing to trim.
   */
  lemma JobDataMapMacroNameParses(key: string)
    requires ',' !in key && '}' !in key
    ensures var name := JobDataMapMacroName(key);
            '}' !in name && ME.MacroName(name) == name && ME.MacroPattern(name) == None
  {
    var name := JobDataMapMacroName(key);
    assert name == MACRO_JOB_DATA_MAP + "[" + key + "]";
    assert ',' !in MACRO_JOB_DATA_MAP + "[" && '}' !in MACRO_JOB_DATA_MAP + "[";
    assert ',' !in name && '}' !in name;
    assert name[0] == 'J';
    TrimUnpadded(name);
  }

  /**
   * After plain text, a reference to a job data entry whose macro exists
   * is replaced by that macro's rendered value in one pass.
   */
  lemma ExpandJobDataReference(macros: map<string, ME.MacroValue>, formatter: ME.PatternFormatter, prefix: string, key: string)
    requires JobDataMapMacroName(key) in macros && ',' !in key && '}' !in key
    requires ME.NoMacroStart(ME.DefaultExpander(macros), prefix + [ME.DEFAULT_START_CHAR])
    ensures Expand(macros, formatter, prefix + Reference(key))
            == prefix + ME.Rendered(macros[JobDataMapMacroName(key)], None, formatter)
  {
    var e := ME.DefaultExpander(macros);
    var name := JobDataMapMacroName(key);
    JobDataMapMacroNameParses(key);
    assert ME.NoMacroStart(e, "");
    assert ME.WithMacro(e, prefix, name, "") == prefix + Reference(key);
    ME.ExpandKnownMacro(e, prefix, name, "", formatter);
  }

  /** `${JOB_DATA_MAP[key]}` alone expands to the entry's value in the builder's macros. */
  lemma ExpandsJobDataEntry(contextMacros: map<string, ME.MacroValue>, merged: map<string, ME.MacroValue>, formatter: ME.PatternFormatter, key: string)
    requires key in merged && ',' !in key && '}' !in key
    ensures Expand(CreateMacros(contextMacros, merged), formatter, Reference(key))
            == ME.Rendered(merged[key], None, formatter)
  {
    var macros := CreateMacros(contextMacros, merged);
    assert macros[JobDataMapMacroName(key)] == merged[key];
    ExpandLoneReference(macros, formatter, key);
  }

  /** A reference with nothing before it is replaced by the rendered value of its macro. */
  lemma ExpandLoneReference(macros: map<string, ME.MacroValue>, formatter: ME.PatternFormatter, key: string)
    requires JobDataMapMacroName(key) in macros && ',' !in key && '}' !in key
    ensures Expand(macros, formatter, Reference(key)) == ME.Rendered(macros[JobDataMapMacroName(key)], None, formatter)
  {
    assert ME.NoMacroStart(ME.DefaultExpander(macros), [] + [ME.DEFAULT_START_CHAR]);
    ExpandJobDataReference(macros, formatter, [], key);
    assert [] + Reference(key) == Reference(key);
  }

  /** `n` copies of `x`. */
  function Xs(n: nat): (r: string)
    ensures |r| == n && forall i :: 0 <= i < n ==> r[i] == 'x'
  {
    if n == 0 then [] else Xs(n - 1) + "x"
  }

  /** Plain `x`s followed by `$` hold no macro opening. */
  lemma XsNoMacroStart(e: ME.Expander, n: nat)
    requires e.startChar == ME.DEFAULT_START_CHAR
    ensures ME.NoMacroStart(e, Xs(n) + [ME.DEFAULT_START_CHAR])
  {
    var s := Xs(n) + [ME.DEFAULT_START_CHAR];
    forall k | 0 <= k < |s|
      ensures !PairAt(s, e.startChar, '{', k)
    {
      if k < n {
        assert s[k] == 'x';
      }
    }
  }

  /** One pass over `x`s and a self reference of `key` adds one `x`. */
  lemma SelfReferenceStep(merged: map<string, ME.MacroValue>, formatter: ME.PatternFormatter, key: string, n: nat)
    requires key in merged && merged[key] == ME.StringValue(Xs(1) + Reference(key)) && ',' !in key && '}' !in key
    ensures Expand(JobDataMapMacros(merged), formatter, Xs(n) + Reference(key)) == Xs(n + 1) + Reference(key)
  {
    var macros := JobDataMapMacros(merged);
    var ref := Reference(key);
    assert macros[JobDataMapMacroName(key)] == ME.StringValue(Xs(1) + ref);
    XsNoMacroStart(ME.DefaultExpander(macros), n);
    ExpandJobDataReference(macros, formatter, Xs(n), key);
    assert ME.Rendered(ME.StringValue(Xs(1) + ref), None, formatter) == Xs(1) + ref;
    OneMoreX(n, ref);
  }

  lemma OneMoreX(n: nat, tail: string)
    ensures Xs(n) + (Xs(1) + tail) == Xs(n + 1) + tail
  {
    assert Xs(n + 1) == Xs(n) + Xs(1);
  }

  /**
   * With `key` holding `x${JOB_DATA_MAP[key]}`, pass `n` of `build`'s loop
   * gives `n + 1` times `x` before the reference: every pass adds one.
   */
  lemma {:induction false} SelfReferencePasses(merged: map<string, ME.MacroValue>, formatter: ME.PatternFormatter, key: string, n: nat)
    requires key in merged && merged[key] == ME.StringValue(Xs(1) + Reference(key)) && ',' !in key && '}' !in key
    ensures Iterate(ExpandPass(JobDataMapMacros(merged), formatter), Xs(1) + Reference(key), n) == Xs(n + 1) + Reference(key)
  {
    if n > 0 {
      var step := ExpandPass(JobDataMapMacros(merged), formatter);
      var v := Xs(1) + Reference(key);
      SelfReferencePasses(merged, formatter, key, n - 1);
      assert Iterate(step, v, n) == step(Xs(n) + Reference(key));
      SelfReferenceStep(merged, formatter, key, n);
    }
  }

  /**
   * A pass that always makes the text one character longer never gives a
   * result seen before, so the loop runs out of any fuel.
   */
  lemma {:induction false} LengtheningNeverSettles(step: string -> string, v: string, n: nat, fuel: nat)
    requires n >= 1
    requires forall m: nat :: |Iterate(step, v, m)| == |v| + m
    ensures SettleFrom(step, v, n, fuel) == None
    decreases fuel
  {
    var current := Iterate(step, v, n);
    SeenIsEarlierPasses(step, v, n, current);
    if fuel > 0 {
      LengtheningNeverSettles(step, v, n + 1, fuel - 1);
    }
  }

  /**
   * A String entry that refers to itself after some text never settles:
   * every pass adds one `x`, so no result repeats and the loop of `build`
   * runs out of fuel however much it is given.
   */
  lemma SelfReferenceNeverSettles(merged: map<string, ME.MacroValue>, formatter: ME.PatternFormatter, key: string, fuel: nat)
    requires key in merged && merged[key] == ME.StringValue(Xs(1) + Reference(key)) && ',' !in key && '}' !in key
    ensures SettleFrom(ExpandPass(JobDataMapMacros(merged), formatter), Xs(1) + Reference(key), 1, fuel) == None
  {
    var step := ExpandPass(JobDataMapMacros(merged), formatter);
    var v := Xs(1) + Reference(key);
    forall m: nat
      ensures |Iterate(step, v, m)| == |v| + m
    {
      SelfReferencePasses(merged, formatter, key, m);
    }
    LengtheningNeverSettles(step, v, 1, fuel);
  }
}
