/** The Sigma rule engine (internal/analysis/engine_v2.go) and its bundled
    rules (internal/analysis/bundled_rules.go).  Rules are kept as data in the
    small subset of Sigma they use: a detection is a conjunction of
    selections, a selection a conjunction of field tests, and a field test
    with a list of values holds when any value does (the Detection section of
    the Sigma specification).  YAML parsing is outside this model: a rule
    file arrives parsed, or as `None` when it does not parse. */
module Sigma {
  import opened Wrappers
  import opened GoStr
  import opened Model

  /** The value modifiers the rules use. */
  datatype Modifier = EndsWith | ContainsAny

  /** `field|modifier: values`: holds when any value matches. */
  datatype FieldTest = FieldTest(field: string, modifier: Modifier, values: seq<string>)

  /** A selection holds when all its field tests do. */
  type Selection = seq<FieldTest>

  datatype Rule = Rule(
    id: string,
    title: string,
    description: string,
    level: string,
    tags: seq<string>,
    category: string,
    detection: seq<Selection>)

  /** The object a rule is evaluated against. */
  type Obj = map<string, string>

  /** String comparison as the evaluator performs it; `ignoreCase` stands for
      the evaluator's case handling, which is outside this model. */
  function Fold(s: string, ignoreCase: bool): string {
    if ignoreCase then Lower(s) else s
  }

  predicate ValueMatches(v: string, m: Modifier, pattern: string, ignoreCase: bool) {
    match m
    case EndsWith => HasSuffix(Fold(v, ignoreCase), Fold(pattern, ignoreCase))
    case ContainsAny => Contains(Fold(v, ignoreCase), Fold(pattern, ignoreCase))
  }

  predicate TestHolds(t: FieldTest, obj: Obj, ignoreCase: bool) {
    t.field in obj && exists i :: 0 <= i < |t.values| && ValueMatches(obj[t.field], t.modifier, t.values[i], ignoreCase)
  }

  predicate SelectionHolds(s: Selection, obj: Obj, ignoreCase: bool) {
    forall i :: 0 <= i < |s| ==> TestHolds(s[i], obj, ignoreCase)
  }

  predicate Matches(r: Rule, obj: Obj, ignoreCase: bool) {
    forall i :: 0 <= i < |r.detection| ==> SelectionHolds(r.detection[i], obj, ignoreCase)
  }

  const ProcessCreation: string := "process_creation"

  /** The six bundled rules, in load order. */
  const WhoamiRule: Rule := Rule(
    "proc_recon_whoami", "Whoami Execution",
    "Detects the execution of whoami.exe, often used for reconnaissance.", "medium",
    ["attack.discovery", "attack.t1033"], ProcessCreation,
    [[FieldTest("Image", EndsWith, ["\\whoami.exe"])]])

  const EncodedPowerShellRule: Rule := Rule(
    "proc_susp_powershell_enc", "Suspicious Encoded PowerShell",
    "Detects usage of -enc / -encodedcommand in PowerShell", "high",
    ["attack.execution", "attack.t1059.001"], ProcessCreation,
    [[FieldTest("Image", EndsWith, ["\\powershell.exe", "\\pwsh.exe"])],
     [FieldTest("CommandLine", ContainsAny, [" -enc ", " -EncodedCommand "])]])

  const LsassDumpRule: Rule := Rule(
    "proc_susp_lsass_dump", "LSASS Access or Dumping",
    "Detects suspicious access or dumping of LSASS", "critical",
    ["attack.credential_access", "attack.t1003.001"], ProcessCreation,
    [[FieldTest("CommandLine", ContainsAny, ["procdump", "comsvcs.dll", "rundll32"])],
     [FieldTest("CommandLine", ContainsAny, ["lsass", "minidump"])]])

  const SchtasksRule: Rule := Rule(
    "proc_persist_schtasks", "Scheduled Task Creation",
    "Detects creation of scheduled tasks via command line", "high",
    ["attack.persistence", "attack.t1053.005"], ProcessCreation,
    [[FieldTest("Image", EndsWith, ["\\schtasks.exe"]), FieldTest("CommandLine", ContainsAny, ["/create"])]])

  const RegRule: Rule := Rule(
    "proc_mod_reg", "Suspicious Registry Modification via Reg.exe",
    "Detects suspicious registry modification Using reg.exe", "medium",
    ["attack.defense_evasion", "attack.t1112"], ProcessCreation,
    [[FieldTest("Image", EndsWith, ["\\reg.exe"]),
      FieldTest("CommandLine", ContainsAny, [" add ", " import ", " restore "])]])

  const BitsadminRule: Rule := Rule(
    "proc_tool_bitsadmin", "Bitsadmin Download",
    "Detects usage of bitsadmin to download files", "high",
    ["attack.defense_evasion", "attack.t1197"], ProcessCreation,
    [[FieldTest("CommandLine", ContainsAny, ["bitsadmin", "/transfer", "/download"])]])

  const BundledRules: seq<Rule> := [WhoamiRule, EncodedPowerShellRule, LsassDumpRule, SchtasksRule, RegRule, BitsadminRule]

  /** Every bundled rule is a process-creation rule. */
  lemma BundledAreProcessCreation()
    ensures |BundledRules| == 6
    ensures forall i :: 0 <= i < |BundledRules| ==> BundledRules[i].category == ProcessCreation
  {
  }

  /** The loaded rules, the rule indices of each category in load order, and
      the indices of rules without a category. */
  datatype Engine = Engine(rules: seq<Rule>, byCat: map<string, seq<nat>>, global: seq<nat>)

  predicate Increasing(s: seq<nat>) {
    forall i, j :: 0 <= i < j < |s| ==> s[i] < s[j]
  }

  /** The bucket layout `NewEngineV2` builds: each rule sits in exactly one
      bucket, its category's or the global one, and buckets list rules in
      load order. */
  predicate Bucketed(e: Engine) {
    && (forall c :: c in e.byCat ==> c != "" && Increasing(e.byCat[c]))
    && Increasing(e.global)
    && (forall c, k :: c in e.byCat && 0 <= k < |e.byCat[c]| ==>
          e.byCat[c][k] < |e.rules| && e.rules[e.byCat[c][k]].category == c)
    && (forall k :: 0 <= k < |e.global| ==> e.global[k] < |e.rules| && e.rules[e.global[k]].category == "")
    && (forall i :: 0 <= i < |e.rules| && e.rules[i].category != "" ==>
          e.rules[i].category in e.byCat && i in e.byCat[e.rules[i].category])
    && (forall i :: 0 <= i < |e.rules| && e.rules[i].category == "" ==> i in e.global)
  }

  /** Load the rules that parsed, in order, into their buckets. */
  function Load(parsed: seq<Option<Rule>>): (e: Engine)
    ensures Bucketed(e)
    ensures |e.rules| <= |parsed|
    ensures (forall j :: 0 <= j < |parsed| ==> parsed[j].Some?) ==> |e.rules| == |parsed|
    decreases |parsed|
  {
    if |parsed| == 0 then Engine([], map[], [])
    else
      var e := Load(parsed[..|parsed| - 1]);
      match parsed[|parsed| - 1]
      case None => e
      case Some(r) => Add(e, r)
  }

  /** Append one rule and record its index in its bucket. */
  function Add(e: Engine, r: Rule): (e': Engine)
    requires Bucketed(e)
    ensures Bucketed(e') && e'.rules == e.rules + [r]
  {
    var idx := |e.rules|;
    var rules := e.rules + [r];
    if r.category != "" then
      var prior := if r.category in e.byCat then e.byCat[r.category] else [];
      var e' := Engine(rules, e.byCat[r.category := prior + [idx]], e.global);
      AddCategorised(e, r, e');
      e'
    else
      var e' := Engine(rules, e.byCat, e.global + [idx]);
      AddGlobal(e, r, e');
      e'
  }

  lemma AddCategorised(e: Engine, r: Rule, e': Engine)
    requires Bucketed(e) && r.category != ""
    requires e' == Engine(e.rules + [r], e.byCat[r.category := (if r.category in e.byCat then e.byCat[r.category] else []) + [|e.rules|]], e.global)
    ensures Bucketed(e')
  {
    var c := r.category;
    var prior := if c in e.byCat then e.byCat[c] else [];
    assert forall i :: 0 <= i < |e.rules| ==> e'.rules[i] == e.rules[i];
    assert forall k :: 0 <= k < |prior| ==> prior[k] < |e.rules|;
    assert Increasing(e'.byCat[c]);
    forall i | 0 <= i < |e'.rules| && e'.rules[i].category != ""
      ensures e'.rules[i].category in e'.byCat && i in e'.byCat[e'.rules[i].category]
    {
      if i < |e.rules| && e.rules[i].category == c {
        assert i in prior;
      }
    }
  }

  lemma AddGlobal(e: Engine, r: Rule, e': Engine)
    requires Bucketed(e) && r.category == ""
    requires e' == Engine(e.rules + [r], e.byCat, e.global + [|e.rules|])
    ensures Bucketed(e')
  {
    assert forall i :: 0 <= i < |e.rules| ==> e'.rules[i] == e.rules[i];
    assert forall k :: 0 <= k < |e.global| ==> e.global[k] < |e.rules|;
  }

  /** `NewEngineV2`: the bundled rules first, then the rule files found
      under the external rule directory. */
  function NewEngine(external: seq<Option<Rule>>): (e: Engine)
    ensures Bucketed(e)
    ensures |e.rules| >= 6 && e.rules[..6] == BundledRules
  {
    var bundled := seq(|BundledRules|, i requires 0 <= i < |BundledRules| => Some(BundledRules[i]));
    LoadPrefix(bundled, external);
    Load(bundled + external)
  }

  /** Loading a list that starts with rules that all parse keeps those rules
      first. */
  lemma {:induction false} LoadPrefix(front: seq<Option<Rule>>, back: seq<Option<Rule>>)
    requires forall j :: 0 <= j < |front| ==> front[j].Some?
    ensures |Load(front + back).rules| >= |front|
    ensures forall j :: 0 <= j < |front| ==> Load(front + back).rules[j] == front[j].value
    decreases |back|
  {
    if |back| == 0 {
      assert front + back == front;
      LoadAll(front);
    } else {
      var all := front + back;
      assert all[..|all| - 1] == front + back[..|back| - 1];
      LoadPrefix(front, back[..|back| - 1]);
    }
  }

  lemma {:induction false} LoadAll(parsed: seq<Option<Rule>>)
    requires forall j :: 0 <= j < |parsed| ==> parsed[j].Some?
    ensures |Load(parsed).rules| == |parsed|
    ensures forall j :: 0 <= j < |parsed| ==> Load(parsed).rules[j] == parsed[j].value
    decreases |parsed|
  {
    if |parsed| > 0 {
      LoadAll(parsed[..|parsed| - 1]);
    }
  }

  /** The value of the first alias source that is present, non-empty and not
      "-". */
  function FirstUsable(details: Details, sources: seq<string>): (r: Option<string>)
    ensures r.Some? <==> exists i :: 0 <= i < |sources| && Usable(details, sources[i])
    ensures r.Some? ==> exists i :: 0 <= i < |sources| && Usable(details, sources[i])
                                    && r.value == details[sources[i]]
                                    && forall j :: 0 <= j < i ==> !Usable(details, sources[j])
  {
    if |sources| == 0 then None
    else if Usable(details, sources[0]) then Some(details[sources[0]])
    else
      var r := FirstUsable(details, sources[1..]);
      assert forall i :: 1 <= i < |sources| ==> sources[i] == sources[1..][i - 1];
      r
  }

  predicate Usable(details: Details, k: string) {
    k in details && details[k] != "" && details[k] != "-"
  }

  /** The adapter's alias table: each target field and the detail keys it
      is filled from, in order of preference. */
  const Aliases: seq<(string, seq<string>)> := [
    ("EventID", ["EventID"]), ("Channel", ["Channel"]), ("Provider_Name", ["Provider"]),
    ("Image", ["NewProcessName", "ExePath"]), ("CommandLine", ["_CommandLine", "CommandLine"]),
    ("ParentImage", ["ParentProcessName", "ParentPath"]),
    ("ParentCommandLine", ["ParentCommandLine", "ParentDetails"]),
    ("ProcessId", ["ProcessId", "PID"]), ("ParentProcessId", ["ParentProcessId", "ParentPID"]),
    ("IntegrityLevel", ["TokenElevationType", "Integrity"]),
    ("User", ["SubjectUserName", "User", "AccountName"]), ("LogonId", ["SubjectLogonId", "LogonId"]),
    ("TargetObject", ["Path", "KeyPath", "Object"]), ("Details", ["Value", "Data", "Details"]),
    ("TargetFilename", ["Path", "Destination"]),
    ("SourceIp", ["LocalIP", "Source"]), ("DestinationIp", ["RemoteIP", "Destination"]),
    ("SourcePort", ["LocalPort"]), ("DestinationPort", ["RemotePort"]), ("Protocol", ["Protocol"])]

  function Targets(table: seq<(string, seq<string>)>): set<string> {
    set i | 0 <= i < |table| :: table[i].0
  }

  /** Apply the alias entries in order to a copy of the details.  Every
      source is read from the original details. */
  function ApplyAliases(obj: Obj, details: Details, table: seq<(string, seq<string>)>): Obj
    decreases |table|
  {
    if |table| == 0 then obj
    else
      var r0 := ApplyAliases(obj, details, table[..|table| - 1]);
      var (t, srcs) := table[|table| - 1];
      match FirstUsable(details, srcs) case Some(v) => r0[t := v] case None => r0
  }

  /** A field that no applicable entry targets keeps its copied value (or
      stays absent). */
  lemma {:induction false} AliasKeeps(obj: Obj, details: Details, table: seq<(string, seq<string>)>, k: string)
    requires forall j :: 0 <= j < |table| && table[j].0 == k ==> FirstUsable(details, table[j].1).None?
    ensures (k in ApplyAliases(obj, details, table) <==> k in obj)
    ensures k in obj ==> ApplyAliases(obj, details, table)[k] == obj[k]
    decreases |table|
  {
    if |table| > 0 {
      var init := table[..|table| - 1];
      assert forall j :: 0 <= j < |init| ==> init[j] == table[j];
      AliasKeeps(obj, details, init, k);
    }
  }

  /** The last entry for a field that finds a usable source sets it. */
  lemma {:induction false} AliasSets(obj: Obj, details: Details, table: seq<(string, seq<string>)>, i: int)
    requires 0 <= i < |table| && FirstUsable(details, table[i].1).Some?
    requires forall j :: i < j < |table| ==> table[j].0 != table[i].0
    ensures table[i].0 in ApplyAliases(obj, details, table)
    ensures ApplyAliases(obj, details, table)[table[i].0] == FirstUsable(details, table[i].1).value
    decreases |table|
  {
    if i < |table| - 1 {
      var init := table[..|table| - 1];
      assert init[i] == table[i];
      AliasSets(obj, details, init, i);
    }
  }

  /** `Evaluate`'s adapter: the details with the alias targets filled in. */
  function Adapt(details: Details): Obj {
    ApplyAliases(details, details, Aliases)
  }

  /** `Image` comes from NewProcessName, else ExePath. */
  lemma AdaptImage(details: Details)
    ensures var img := FirstUsable(details, ["NewProcessName", "ExePath"]);
            img.Some? ==> "Image" in Adapt(details) && Adapt(details)["Image"] == img.value
  {
    assert Aliases[3] == ("Image", ["NewProcessName", "ExePath"]);
    assert forall j :: 3 < j < |Aliases| ==> Aliases[j].0 != "Image";
    if FirstUsable(details, ["NewProcessName", "ExePath"]).Some? { AliasSets(details, details, Aliases, 3); }
  }

  /** `CommandLine` comes from `_CommandLine`, else CommandLine, else keeps
      its copied value. */
  lemma AdaptCommandLine(details: Details)
    ensures var cmd := FirstUsable(details, ["_CommandLine", "CommandLine"]);
            && (cmd.Some? ==> "CommandLine" in Adapt(details) && Adapt(details)["CommandLine"] == cmd.value)
            && (cmd.None? ==> ("CommandLine" in Adapt(details) <==> "CommandLine" in details))
            && (cmd.None? && "CommandLine" in details ==> Adapt(details)["CommandLine"] == details["CommandLine"])
  {
    assert Aliases[4] == ("CommandLine", ["_CommandLine", "CommandLine"]);
    assert forall j :: 0 <= j < |Aliases| && j != 4 ==> Aliases[j].0 != "CommandLine";
    if FirstUsable(details, ["_CommandLine", "CommandLine"]).Some? {
      AliasSets(details, details, Aliases, 4);
    } else {
      AliasKeeps(details, details, Aliases, "CommandLine");
    }
  }

  /** The EventID field is the EventID detail, unchanged. */
  lemma AdaptEventId(details: Details)
    ensures "EventID" in Adapt(details) <==> "EventID" in details
    ensures "EventID" in details ==> Adapt(details)["EventID"] == details["EventID"]
  {
    assert Aliases[0] == ("EventID", ["EventID"]);
    assert forall j :: 0 < j < |Aliases| ==> Aliases[j].0 != "EventID";
    if FirstUsable(details, ["EventID"]).Some? {
      AliasSets(details, details, Aliases, 0);
    } else {
      AliasKeeps(details, details, Aliases, "EventID");
    }
  }

  /** Fields that are not alias targets keep their detail values. */
  lemma AdaptKeepsOthers(details: Details, k: string)
    requires forall j :: 0 <= j < |Aliases| ==> Aliases[j].0 != k
    ensures k in Adapt(details) <==> k in details
    ensures k in details ==> Adapt(details)[k] == details[k]
  {
    AliasKeeps(details, details, Aliases, k);
  }

  /** The rule category an event is checked against: from the EventID
      field, else from the artifact, else none (""). */
  function CategoryOf(obj: Obj, artifact: string): (c: string)
    ensures c in {"", ProcessCreation, "network_connection", "file_event", "registry_event"}
    ensures var eid := if "EventID" in obj then obj["EventID"] else "<nil>";
            eid in {"4688", "1"} ==> c == ProcessCreation
    ensures var eid := if "EventID" in obj then obj["EventID"] else "<nil>";
            eid !in {"4688", "1", "4624", "4625", "2", "4663", "11", "23", "26", "12", "13", "14"} ==>
              c == (if artifact == "Registry" then "registry_event"
                    else if artifact == "Prefetch" then ProcessCreation else "")
  {
    var eid := if "EventID" in obj then obj["EventID"] else "<nil>";
    if eid in {"4688", "1"} then ProcessCreation
    else if eid in {"4624", "4625", "2"} then "network_connection"
    else if eid in {"4663", "11", "23", "26"} then "file_event"
    else if eid in {"12", "13", "14"} then "registry_event"
    else if artifact == "Registry" then "registry_event"
    else if artifact == "Prefetch" then ProcessCreation
    else ""
  }

  /** The first listed rule that matches. */
  function FirstMatch(rules: seq<Rule>, indices: seq<nat>, obj: Obj, ignoreCase: bool): (r: Option<nat>)
    requires forall k :: 0 <= k < |indices| ==> indices[k] < |rules|
    ensures r.None? <==> forall k :: 0 <= k < |indices| ==> !Matches(rules[indices[k]], obj, ignoreCase)
    ensures r.Some? ==> exists k :: 0 <= k < |indices| && indices[k] == r.value
                                    && Matches(rules[r.value], obj, ignoreCase)
                                    && forall k' :: 0 <= k' < k ==> !Matches(rules[indices[k']], obj, ignoreCase)
  {
    if |indices| == 0 then None
    else if Matches(rules[indices[0]], obj, ignoreCase) then Some(indices[0])
    else
      var r := FirstMatch(rules, indices[1..], obj, ignoreCase);
      assert forall k :: 1 <= k < |indices| ==> indices[k] == indices[1..][k - 1];
      r
  }

  /** Position `k` of `indices` holds the first listed rule that matches. */
  predicate IsFirstMatch(rules: seq<Rule>, indices: seq<nat>, obj: Obj, ignoreCase: bool, k: int)
    requires forall j :: 0 <= j < |indices| ==> indices[j] < |rules|
  {
    && 0 <= k < |indices| && Matches(rules[indices[k]], obj, ignoreCase)
    && forall j :: 0 <= j < k ==> !Matches(rules[indices[j]], obj, ignoreCase)
  }

  /** The first match is the one at the position that `IsFirstMatch` picks. */
  lemma FirstMatchAt(rules: seq<Rule>, indices: seq<nat>, obj: Obj, ignoreCase: bool)
    requires forall j :: 0 <= j < |indices| ==> indices[j] < |rules|
    ensures forall k :: IsFirstMatch(rules, indices, obj, ignoreCase, k) ==>
              FirstMatch(rules, indices, obj, ignoreCase) == Some(indices[k])
  {
    var r := FirstMatch(rules, indices, obj, ignoreCase);
    forall k | IsFirstMatch(rules, indices, obj, ignoreCase, k)
      ensures r == Some(indices[k])
    {
      var k' :| 0 <= k' < |indices| && indices[k'] == r.value && Matches(rules[r.value], obj, ignoreCase)
                && forall j :: 0 <= j < k' ==> !Matches(rules[indices[j]], obj, ignoreCase);
    }
  }

  /** The rule indices of category `cat`: none for the empty category or
      one without rules. */
  function CatBucket(e: Engine, cat: string): (b: seq<nat>)
    requires Bucketed(e)
    ensures forall j :: 0 <= j < |b| ==> b[j] < |e.rules| && e.rules[b[j]].category == cat
    ensures cat != "" ==> forall i :: 0 <= i < |e.rules| && e.rules[i].category == cat ==> i in b
  {
    if cat != "" && cat in e.byCat then e.byCat[cat] else []
  }

  /** When no rule of the category or of the global bucket matches, neither
      bucket yields a first match. */
  lemma NoMatchInScope(e: Engine, obj: Obj, cat: string, ignoreCase: bool)
    requires Bucketed(e)
    ensures (forall i :: 0 <= i < |e.rules| && e.rules[i].category in {"", cat} ==> !Matches(e.rules[i], obj, ignoreCase))
            ==> FirstMatch(e.rules, CatBucket(e, cat), obj, ignoreCase).None?
                && FirstMatch(e.rules, e.global, obj, ignoreCase).None?
  {
    var b := CatBucket(e, cat);
    if forall i :: 0 <= i < |e.rules| && e.rules[i].category in {"", cat} ==> !Matches(e.rules[i], obj, ignoreCase) {
      forall k | 0 <= k < |b| ensures !Matches(e.rules[b[k]], obj, ignoreCase) {
        assert e.rules[b[k]].category == cat;
      }
      forall k | 0 <= k < |e.global| ensures !Matches(e.rules[e.global[k]], obj, ignoreCase) {
        assert e.rules[e.global[k]].category == "";
      }
    }
  }

  /** `Evaluate`: the category's rules in load order, then the global
      rules; the first match wins. */
  function Evaluate(e: Engine, ev: TimelineEvent, ignoreCase: bool): (r: Option<Rule>)
    requires Bucketed(e)
    ensures var obj := Adapt(ev.details);
            var b := CatBucket(e, CategoryOf(obj, ev.artifact));
            forall k :: IsFirstMatch(e.rules, b, obj, ignoreCase, k) ==> r == Some(e.rules[b[k]])
    ensures var obj := Adapt(ev.details);
            var b := CatBucket(e, CategoryOf(obj, ev.artifact));
            (forall k :: 0 <= k < |b| ==> !Matches(e.rules[b[k]], obj, ignoreCase)) ==>
              && (forall k :: IsFirstMatch(e.rules, e.global, obj, ignoreCase, k) ==> r == Some(e.rules[e.global[k]]))
              && (r.None? <==> forall k :: 0 <= k < |e.global| ==> !Matches(e.rules[e.global[k]], obj, ignoreCase))
    ensures r.Some? ==> exists i :: 0 <= i < |e.rules| && r.value == e.rules[i]
                                    && Matches(e.rules[i], Adapt(ev.details), ignoreCase)
                                    && e.rules[i].category in {"", CategoryOf(Adapt(ev.details), ev.artifact)}
    ensures (forall i :: 0 <= i < |e.rules| && e.rules[i].category in {"", CategoryOf(Adapt(ev.details), ev.artifact)}
               ==> !Matches(e.rules[i], Adapt(ev.details), ignoreCase)) ==> r.None?
  {
    var obj := Adapt(ev.details);
    var cat := CategoryOf(obj, ev.artifact);
    BucketFirst(e, obj, cat, ignoreCase);
    GlobalAfterBucket(e, obj, cat, ignoreCase);
    PickedInScope(e, obj, cat, ignoreCase);
    NonePickedOutOfScope(e, obj, cat, ignoreCase);
    FirstInScope(e, obj, cat, ignoreCase)
  }

  /** The rule `Evaluate` picks for the adapted object `obj` of category
      `cat`. */
  function FirstInScope(e: Engine, obj: Obj, cat: string, ignoreCase: bool): Option<Rule>
    requires Bucketed(e)
  {
    match FirstMatch(e.rules, CatBucket(e, cat), obj, ignoreCase)
    case Some(i) => Some(e.rules[i])
    case None =>
      match FirstMatch(e.rules, e.global, obj, ignoreCase)
      case Some(i) => Some(e.rules[i])
      case None => None
  }

  /** The category's bucket is tried first. */
  lemma BucketFirst(e: Engine, obj: Obj, cat: string, ignoreCase: bool)
    requires Bucketed(e)
    ensures var b := CatBucket(e, cat);
            forall k :: IsFirstMatch(e.rules, b, obj, ignoreCase, k) ==> FirstInScope(e, obj, cat, ignoreCase) == Some(e.rules[b[k]])
  {
    FirstMatchAt(e.rules, CatBucket(e, cat), obj, ignoreCase);
  }

  /** When nothing in the category's bucket matches, the global bucket
      decides. */
  lemma GlobalAfterBucket(e: Engine, obj: Obj, cat: string, ignoreCase: bool)
    requires Bucketed(e)
    ensures var b := CatBucket(e, cat);
            var r := FirstInScope(e, obj, cat, ignoreCase);
            (forall k :: 0 <= k < |b| ==> !Matches(e.rules[b[k]], obj, ignoreCase)) ==>
              && (forall k :: IsFirstMatch(e.rules, e.global, obj, ignoreCase, k) ==> r == Some(e.rules[e.global[k]]))
              && (r.None? <==> forall k :: 0 <= k < |e.global| ==> !Matches(e.rules[e.global[k]], obj, ignoreCase))
  {
    var b := CatBucket(e, cat);
    FirstMatchAt(e.rules, e.global, obj, ignoreCase);
    if forall k :: 0 <= k < |b| ==> !Matches(e.rules[b[k]], obj, ignoreCase) {
      assert FirstMatch(e.rules, b, obj, ignoreCase).None?;
      var g := FirstMatch(e.rules, e.global, obj, ignoreCase);
      assert FirstInScope(e, obj, cat, ignoreCase) == if g.Some? then Some(e.rules[g.value]) else None;
    }
  }

  /** The rule picked matches and is of the category or global. */
  lemma PickedInScope(e: Engine, obj: Obj, cat: string, ignoreCase: bool)
    requires Bucketed(e)
    ensures var r := FirstInScope(e, obj, cat, ignoreCase);
            r.Some? ==> exists i :: 0 <= i < |e.rules| && r.value == e.rules[i]
                                    && Matches(e.rules[i], obj, ignoreCase) && e.rules[i].category in {"", cat}
  {
    var b := CatBucket(e, cat);
    match FirstMatch(e.rules, b, obj, ignoreCase)
    case Some(i) =>
      assert e.rules[i].category == cat;
    case None =>
      match FirstMatch(e.rules, e.global, obj, ignoreCase)
      case Some(i) =>
        assert e.rules[i].category == "";
      case None =>
  }

  /** When no rule of the category and no global rule matches, none is
      picked. */
  lemma NonePickedOutOfScope(e: Engine, obj: Obj, cat: string, ignoreCase: bool)
    requires Bucketed(e)
    ensures (forall i :: 0 <= i < |e.rules| && e.rules[i].category in {"", cat} ==> !Matches(e.rules[i], obj, ignoreCase))
            ==> FirstInScope(e, obj, cat, ignoreCase).None?
  {
    NoMatchInScope(e, obj, cat, ignoreCase);
  }

  /** With only the bundled rules, events outside process creation never
      match. */
  lemma OtherCategoriesNeverMatch(ev: TimelineEvent, ignoreCase: bool)
    requires CategoryOf(Adapt(ev.details), ev.artifact) != ProcessCreation
    ensures Evaluate(NewEngine([]), ev, ignoreCase) == None
  {
    var e := NewEngine([]);
    BundledOnly();
    BundledAreProcessCreation();
    assert forall i :: 0 <= i < |e.rules| ==> e.rules[i].category == ProcessCreation;
  }

  /** Without external rules the engine holds exactly the bundled rules. */
  lemma BundledOnly()
    ensures NewEngine([]).rules == BundledRules
  {
    var bundled := seq(|BundledRules|, i requires 0 <= i < |BundledRules| => Some(BundledRules[i]));
    assert bundled + [] == bundled;
    var e := NewEngine([]);
    assert |e.rules| <= 6;
    assert e.rules == e.rules[..6];
  }

  /** The adapter maps `NewProcessName` to `Image`, so a process-creation
      record of whoami, in any directory, matches the first bundled rule. */
  lemma WhoamiDetected(dir: string, ignoreCase: bool)
    ensures var ev := NewEvent("", UnixEpoch, "EventLog", "Security", "", "",
                               map["EventID" := "4688", "NewProcessName" := dir + "\\whoami.exe",
                                   "_CommandLine" := "whoami /all"], PathRef(""));
            Evaluate(NewEngine([]), ev, ignoreCase) == Some(WhoamiRule)
  {
    var d := map["EventID" := "4688", "NewProcessName" := dir + "\\whoami.exe", "_CommandLine" := "whoami /all"];
    var ev := NewEvent("", UnixEpoch, "EventLog", "Security", "", "", d, PathRef(""));
    var obj := Adapt(d);
    WhoamiAdapted(dir, d);
    WhoamiRuleMatches(obj, dir, ignoreCase);
    WhoamiBucket();
    var e := NewEngine([]);
    assert FirstMatch(e.rules, e.byCat[ProcessCreation], obj, ignoreCase) == Some(0);
  }

  lemma WhoamiAdapted(dir: string, d: Details)
    requires d == map["EventID" := "4688", "NewProcessName" := dir + "\\whoami.exe", "_CommandLine" := "whoami /all"]
    ensures "Image" in Adapt(d) && Adapt(d)["Image"] == dir + "\\whoami.exe"
    ensures CategoryOf(Adapt(d), "Security") == ProcessCreation
  {
    var path := dir + "\\whoami.exe";
    assert |path| >= 2;
    assert Usable(d, "NewProcessName");
    assert FirstUsable(d, ["NewProcessName", "ExePath"]) == Some(path);
    AdaptImage(d);
    AdaptEventId(d);
  }

  lemma WhoamiRuleMatches(obj: Obj, dir: string, ignoreCase: bool)
    requires "Image" in obj && obj["Image"] == dir + "\\whoami.exe"
    ensures Matches(WhoamiRule, obj, ignoreCase)
  {
    var path := dir + "\\whoami.exe";
    var test := WhoamiRule.detection[0][0];
    assert test == FieldTest("Image", EndsWith, ["\\whoami.exe"]);
    assert HasSuffix(Fold(path, ignoreCase), Fold("\\whoami.exe", ignoreCase)) by {
      if ignoreCase {
        LowerAppend(dir, "\\whoami.exe");
      }
    }
    assert ValueMatches(obj[test.field], test.modifier, test.values[0], ignoreCase);
    assert TestHolds(test, obj, ignoreCase);
    assert SelectionHolds(WhoamiRule.detection[0], obj, ignoreCase);
  }

  /** Rule 0, the whoami rule, heads the process-creation bucket of the
      bundled engine. */
  lemma WhoamiBucket()
    ensures var e := NewEngine([]);
            && ProcessCreation in e.byCat && |e.byCat[ProcessCreation]| > 0
            && e.byCat[ProcessCreation][0] == 0 && e.rules[0] == WhoamiRule
  {
    var e := NewEngine([]);
    BundledOnly();
    assert e.rules[0] == WhoamiRule;
    var bucket := e.byCat[ProcessCreation];
    assert 0 in bucket;
    var k :| 0 <= k < |bucket| && bucket[k] == 0;
    assert bucket[0] <= bucket[k];
  }

  lemma LowerAppend(a: string, b: string)
    ensures Lower(a + b) == Lower(a) + Lower(b)
  {
    assert |Lower(a + b)| == |Lower(a) + Lower(b)|;
    forall i | 0 <= i < |a + b| ensures Lower(a + b)[i] == (Lower(a) + Lower(b))[i] {
      if i < |a| { } else { assert (a + b)[i] == b[i - |a|]; }
    }
  }
}
