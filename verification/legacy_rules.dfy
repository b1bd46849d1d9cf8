/** The hand-written detection rules of the first engine
    (internal/analysis/rules.go): eight rules, each a fixed test on the
    trimmed, lower-cased details of an event. */
module LegacyRules {
  import opened GoStr
  import opened Model

  /** `getDetail`: the value with surrounding white space removed, or ""
      when the key is absent. */
  function GetDetail(d: Details, key: string): (r: string)
    ensures key !in d ==> r == ""
    ensures key in d ==> IsSliceOf(r, d[key])
    ensures |r| > 0 ==> !IsSpace(r[0]) && !IsSpace(r[|r| - 1])
  {
    if key in d then TrimSpace(d[key]) else ""
  }

  /** The lower-cased detail the checks inspect. */
  function Low(d: Details, key: string): string {
    Lower(GetDetail(d, key))
  }

  predicate IsProcessCreation(d: Details) {
    GetDetail(d, "EventID") == "4688"
  }

  datatype Check =
    | WhoamiCheck
    | EncodedPowerShellCheck
    | LsassDumpCheck
    | NetReconCheck
    | CriticalProcessAccessCheck
    | SchtasksCheck
    | RegModifyCheck
    | BitsadminCheck

  /** What the checks read from an event: the trimmed event ID and the
      trimmed, lower-cased process, command line and object names. */
  datatype Signals = Signals(eventId: string, process: string, cmd: string, obj: string)

  function SignalsOf(d: Details): Signals {
    Signals(GetDetail(d, "EventID"), Low(d, "NewProcessName"), Low(d, "CommandLine"), Low(d, "ObjectName"))
  }

  /** The test of each check, apart from the event ID. */
  predicate Pattern(c: Check, s: Signals) {
    match c
    case WhoamiCheck => Contains(s.process, "whoami.exe") || Contains(s.cmd, "whoami")
    case EncodedPowerShellCheck =>
      && (Contains(s.process, "powershell") || Contains(s.process, "pwsh"))
      && (Contains(s.cmd, " -enc") || Contains(s.cmd, " -e "))
    case LsassDumpCheck =>
      || (Contains(s.cmd, "comsvcs.dll") && Contains(s.cmd, "minidump"))
      || (Contains(s.cmd, "procdump") && Contains(s.cmd, "lsass"))
    case NetReconCheck =>
      && (Contains(s.process, "net.exe") || Contains(s.process, "net1.exe"))
      && (Contains(s.cmd, " group") || Contains(s.cmd, " user") || Contains(s.cmd, " localgroup"))
    case CriticalProcessAccessCheck => Contains(s.obj, "lsass.exe")
    case SchtasksCheck => Contains(s.process, "schtasks") && Contains(s.cmd, "/create")
    case RegModifyCheck => Contains(s.process, "reg.exe") && (Contains(s.cmd, " add ") || Contains(s.cmd, " import "))
    case BitsadminCheck => Contains(s.cmd, "bitsadmin") && Contains(s.cmd, "/transfer")
  }

  /** The event IDs a check looks at. */
  predicate EventIdGate(c: Check, eventId: string) {
    if c == CriticalProcessAccessCheck then eventId == "4663" || eventId == "4656" else eventId == "4688"
  }

  /** Each rule's `Check` function. */
  predicate Fires(c: Check, d: Details) {
    var s := SignalsOf(d);
    EventIdGate(c, s.eventId) && Pattern(c, s)
  }

  datatype LegacyRule = LegacyRule(id: string, title: string, level: string, description: string,
                                   mitre: seq<string>, check: Check)

  /** `GetBuiltinRules`, in order. */
  const BuiltinRules: seq<LegacyRule> := [
    LegacyRule("proc_recon_whoami", "Whoami Execution", "medium",
               "Feature: System Owner/User Discovery. Identify usage of whoami.exe.", ["T1033"], WhoamiCheck),
    LegacyRule("proc_susp_powershell_enc", "Suspicious Encoded PowerShell", "high",
               "Detects usage of -enc/-encodedcommand in PowerShell", ["T1059.001"], EncodedPowerShellCheck),
    LegacyRule("proc_cred_dump_lsass", "Potential LSASS Dumping", "critical",
               "Detects patterns associated with LSASS credential dumping (e.g. procdump, comsvcs)", ["T1003.001"],
               LsassDumpCheck),
    LegacyRule("proc_recon_net", "Network/User Reconnaissance", "low",
               "Usage of net.exe for reconnaissance", ["T1087", "T1069"], NetReconCheck),
    LegacyRule("sys_critical_process_access", "Critical Process Access", "high",
               "Access to critical processes like LSASS", ["T1003"], CriticalProcessAccessCheck),
    LegacyRule("proc_persist_schtasks", "Scheduled Task Creation", "high",
               "Detects creation of scheduled tasks via command line", ["T1053.005"], SchtasksCheck),
    LegacyRule("proc_mod_reg", "Suspicious Registry Modification", "medium",
               "Detects usage of reg.exe to add keys", ["T1112"], RegModifyCheck),
    LegacyRule("proc_tool_bitsadmin", "Bitsadmin Download", "high",
               "Detects usage of bitsadmin to download files", ["T1197"], BitsadminCheck)]

  /** The rules that fire on an event, in list order.  Nothing in the
      source applies the list: this is the model's own reading of what each
      rule's `Check` field (internal/analysis/rules.go:16) decides. */
  function FiringRules(rules: seq<LegacyRule>, d: Details): (r: seq<LegacyRule>)
    ensures forall x :: x in r ==> x in rules && Fires(x.check, d)
    ensures forall x :: x in rules && Fires(x.check, d) ==> x in r
    ensures |r| <= |rules|
  {
    if |rules| == 0 then []
    else (if Fires(rules[0].check, d) then [rules[0]] else []) + FiringRules(rules[1..], d)
  }

  /** Every check but the critical-process one looks only at process
      creation (event 4688); that one only at object access (4663, 4656). */
  lemma CheckEventIds(c: Check, d: Details)
    ensures Fires(c, d) && c != CriticalProcessAccessCheck ==> GetDetail(d, "EventID") == "4688"
    ensures Fires(c, d) && c == CriticalProcessAccessCheck ==>
              GetDetail(d, "EventID") == "4663" || GetDetail(d, "EventID") == "4656"
  {
    if Fires(c, d) {
      assert EventIdGate(c, SignalsOf(d).eventId);
    }
  }

  /** On anything but events 4688, 4663 and 4656 no rule fires. */
  lemma OtherEventsFireNothing(rules: seq<LegacyRule>, d: Details)
    requires GetDetail(d, "EventID") != "4688" && GetDetail(d, "EventID") != "4663"
    requires GetDetail(d, "EventID") != "4656"
    ensures FiringRules(rules, d) == []
  {
    forall x | x in rules
      ensures !Fires(x.check, d)
    {
      if Fires(x.check, d) {
        CheckEventIds(x.check, d);
      }
    }
  }

  /** The checks read only the event ID and the process, command line and
      object names, and those up to letter case. */
  lemma CaseBlind(c: Check, d1: Details, d2: Details)
    requires GetDetail(d1, "EventID") == GetDetail(d2, "EventID")
    requires Low(d1, "NewProcessName") == Low(d2, "NewProcessName")
    requires Low(d1, "CommandLine") == Low(d2, "CommandLine")
    requires Low(d1, "ObjectName") == Low(d2, "ObjectName")
    ensures Fires(c, d1) == Fires(c, d2)
  {
    assert SignalsOf(d1) == SignalsOf(d2);
  }

  /** The rule identifiers are distinct. */
  lemma DistinctIds()
    ensures forall i, j :: 0 <= i < j < |BuiltinRules| ==> BuiltinRules[i].id != BuiltinRules[j].id
  {
  }
}
